/**
  JSON texts: `json.loads` as a recursive descent parser (section 2 of RFC 8259), and what is
  left of a text that is cut short. Every function reads `s` from position i on.
 */
module JsonText {
  import opened Json
  import opened Text

  /** The outcome of reading something: its value and the position after it. */
  datatype Parsed<+T> = Fail | Parsed(value: T, at: nat)

  predicate IsJsonSpace(c: char) { c in " \t\n\r" }

  predicate Has(s: string, i: nat, c: char) { i < |s| && s[i] == c }

  predicate HasDigit(s: string, i: nat) { i < |s| && IsDigit(s[i]) }

  /** The first position from i on that holds no white space. */
  function Skip(s: string, i: nat): (j: nat)
    requires i <= |s|
    ensures i <= j <= |s|
    decreases |s| - i
  {
    if i < |s| && IsJsonSpace(s[i]) then Skip(s, i + 1) else i
  }

  // ----- numbers -----

  function SkipDigits(s: string, i: nat): (j: nat)
    requires i <= |s|
    ensures i <= j <= |s|
    ensures AllDigits(s[i..j])
    decreases |s| - i
  {
    if HasDigit(s, i) then SkipDigits(s, i + 1) else i
  }

  /** The end of the integer part, or i when there is none. */
  function IntegerEnd(s: string, i: nat): (j: nat)
    requires i <= |s|
    ensures i <= j <= |s|
  {
    var d := if Has(s, i, '-') then i + 1 else i;
    if Has(s, d, '0') then d + 1 else if HasDigit(s, d) then SkipDigits(s, d) else i
  }

  function FractionEnd(s: string, i: nat): (j: nat)
    requires i <= |s|
    ensures i <= j <= |s|
  {
    if Has(s, i, '.') && HasDigit(s, i + 1) then SkipDigits(s, i + 1) else i
  }

  function ExponentEnd(s: string, i: nat): (j: nat)
    requires i <= |s|
    ensures i <= j <= |s|
  {
    if Has(s, i, 'e') || Has(s, i, 'E') then
      var d := if Has(s, i + 1, '+') || Has(s, i + 1, '-') then i + 2 else i + 1;
      if HasDigit(s, d) then SkipDigits(s, d) else i
    else i
  }

  function PowerOfTen(e: int): real
    decreases if e < 0 then -e else e
  {
    if e == 0 then 1.0 else if e > 0 then 10.0 * PowerOfTen(e - 1) else PowerOfTen(e + 1) / 10.0
  }

  /** How far the point is moved: by the exponent, less the digits behind the point. */
  function Scale(fraction: string, exponent: string): int {
    (if exponent == "" then 0 else ParseInt(exponent[1..]).GetOr(0))
    - if fraction == "" then 0 else |fraction| - 1
  }

  /** The number spelled by an integer part, a fraction part and an exponent part. */
  function NumberValue(whole: string, fraction: string, exponent: string): Json {
    if fraction == "" && exponent == "" then JInt(ParseInt(whole).GetOr(0))
    else
      var digits := whole + if fraction == "" then "" else fraction[1..];
      JFloat(ParseInt(digits).GetOr(0) as real * PowerOfTen(Scale(fraction, exponent)))
  }

  function ParseNumber(s: string, i: nat): (r: Parsed<Json>)
    requires i <= |s|
    ensures r.Parsed? ==> i < r.at <= |s|
  {
    var a := IntegerEnd(s, i);
    if a == i then Fail
    else
      var b := FractionEnd(s, a);
      var c := ExponentEnd(s, b);
      Parsed(NumberValue(s[i..a], s[a..b], s[b..c]), c)
  }

  // ----- strings -----

  predicate IsHex(c: char) { '0' <= c <= '9' || 'a' <= c <= 'f' || 'A' <= c <= 'F' }

  predicate HasHex(s: string, i: nat) { i < |s| && IsHex(s[i]) }

  function HexValue(c: char): nat
    requires IsHex(c)
  {
    if c <= '9' then c as int - '0' as int
    else if c <= 'F' then c as int - 'A' as int + 10
    else c as int - 'a' as int + 10
  }

  function HexCode(a: char, b: char, c: char, d: char): (code: nat)
    requires IsHex(a) && IsHex(b) && IsHex(c) && IsHex(d)
    ensures code < 0x1_0000
  {
    4096 * HexValue(a) + 256 * HexValue(b) + 16 * HexValue(c) + HexValue(d)
  }

  /** A backslash, a u and four hexadecimal digits. */
  predicate HasUnicode(s: string, i: nat) {
    && Has(s, i, '\\') && Has(s, i + 1, 'u')
    && HasHex(s, i + 2) && HasHex(s, i + 3) && HasHex(s, i + 4) && HasHex(s, i + 5)
  }

  function CodeAt(s: string, i: nat): (code: nat)
    requires HasUnicode(s, i)
    ensures code < 0x1_0000
  {
    HexCode(s[i + 2], s[i + 3], s[i + 4], s[i + 5])
  }

  predicate IsHigh(code: nat) { 0xD800 <= code < 0xDC00 }

  predicate IsLow(code: nat) { 0xDC00 <= code < 0xE000 }

  /** The character that a surrogate pair stands for. */
  function Joined(high: nat, low: nat): char
    requires IsHigh(high) && IsLow(low)
  {
    (0x1_0000 + (high - 0xD800) * 0x400 + (low - 0xDC00)) as char
  }

  /** The character of one escape; half a surrogate pair on its own reads as U+FFFD. */
  function CharOf(code: nat): char
    requires code < 0x1_0000
  {
    if IsHigh(code) || IsLow(code) then '\U{FFFD}' else code as char
  }

  predicate HasPair(s: string, i: nat) {
    HasUnicode(s, i) && IsHigh(CodeAt(s, i)) && HasUnicode(s, i + 6) && IsLow(CodeAt(s, i + 6))
  }

  /** The character that a one letter escape stands for. */
  function Escaped(c: char): Option<char> {
    match c
    case '"' => Some('"')
    case '\\' => Some('\\')
    case '/' => Some('/')
    case 'b' => Some('\U{08}')
    case 'f' => Some('\U{0C}')
    case 'n' => Some('\n')
    case 'r' => Some('\r')
    case 't' => Some('\t')
    case _ => None
  }

  /** One character of a string, escaped or not; the closing quote is no character. */
  function ParseChar(s: string, i: nat): (r: Parsed<char>)
    ensures r.Parsed? ==> i < r.at <= |s|
  {
    if i >= |s| || s[i] == '"' || s[i] < ' ' then Fail
    else if s[i] != '\\' then Parsed(s[i], i + 1)
    else if Has(s, i + 1, 'u') then
      if HasPair(s, i) then Parsed(Joined(CodeAt(s, i), CodeAt(s, i + 6)), i + 12)
      else if HasUnicode(s, i) then Parsed(CharOf(CodeAt(s, i)), i + 6)
      else Fail
    else if i + 1 < |s| && Escaped(s[i + 1]).Some? then Parsed(Escaped(s[i + 1]).value, i + 2)
    else Fail
  }

  /** The rest of a string, after its opening quote. */
  function ParseString(s: string, i: nat): (r: Parsed<string>)
    requires i <= |s|
    ensures r.Parsed? ==> i < r.at <= |s|
    decreases |s| - i
  {
    if Has(s, i, '"') then Parsed("", i + 1)
    else
      match ParseChar(s, i)
      case Fail => Fail
      case Parsed(c, j) =>
        match ParseString(s, j)
        case Fail => Fail
        case Parsed(cs, k) => Parsed([c] + cs, k)
  }

  // ----- values -----

  predicate HasWord(s: string, i: nat, word: string) { i + |word| <= |s| && s[i..i + |word|] == word }

  /** A value that is no string, array or object. */
  function ParseScalar(s: string, i: nat): (r: Parsed<Json>)
    requires i <= |s|
    ensures r.Parsed? ==> i < r.at <= |s|
  {
    if HasWord(s, i, "null") then Parsed(JNull, i + 4)
    else if HasWord(s, i, "true") then Parsed(JBool(true), i + 4)
    else if HasWord(s, i, "false") then Parsed(JBool(false), i + 5)
    else ParseNumber(s, i)
  }

  /** One value that starts at i. */
  function ParseValue(s: string, i: nat): (r: Parsed<Json>)
    requires i <= |s|
    ensures r.Parsed? ==> i < r.at <= |s|
    decreases |s| - i, 0
  {
    if Has(s, i, '"') then
      match ParseString(s, i + 1)
      case Fail => Fail
      case Parsed(cs, j) => Parsed(JStr(cs), j)
    else if Has(s, i, '[') then
      var j := Skip(s, i + 1);
      if Has(s, j, ']') then Parsed(JArr([]), j + 1)
      else
        match ParseElements(s, j)
        case Fail => Fail
        case Parsed(vs, k) => Parsed(JArr(vs), k)
    else if Has(s, i, '{') then
      var j := Skip(s, i + 1);
      if Has(s, j, '}') then Parsed(JObj(map[]), j + 1)
      else
        match ParseMembers(s, j)
        case Fail => Fail
        case Parsed(m, k) => Parsed(JObj(m), k)
    else ParseScalar(s, i)
  }

  /** One or more values up to and including the closing bracket. */
  function ParseElements(s: string, i: nat): (r: Parsed<seq<Json>>)
    requires i <= |s|
    ensures r.Parsed? ==> i < r.at <= |s|
    decreases |s| - i, 1
  {
    match ParseValue(s, i)
    case Fail => Fail
    case Parsed(v, after) => MoreElements(v, s, after)
  }

  /** What follows an element: the closing bracket, or a comma and more elements. */
  function MoreElements(v: Json, s: string, i: nat): (r: Parsed<seq<Json>>)
    requires i <= |s|
    ensures r.Parsed? ==> i < r.at <= |s|
    decreases |s| - i, 1
  {
    var j := Skip(s, i);
    if Has(s, j, ']') then Parsed([v], j + 1)
    else if Has(s, j, ',') then Before(v, ParseElements(s, Skip(s, j + 1)))
    else Fail
  }

  function Before(v: Json, rest: Parsed<seq<Json>>): Parsed<seq<Json>> {
    match rest
    case Fail => Fail
    case Parsed(vs, k) => Parsed([v] + vs, k)
  }

  /** One or more members up to and including the closing brace. */
  function ParseMembers(s: string, i: nat): (r: Parsed<map<string, Json>>)
    requires i <= |s|
    ensures r.Parsed? ==> i < r.at <= |s|
    decreases |s| - i, 1
  {
    if !Has(s, i, '"') then Fail
    else
      match ParseString(s, i + 1)
      case Fail => Fail
      case Parsed(key, after) =>
        match ValueAfterColon(s, after)
        case Fail => Fail
        case Parsed(_, j) => ParseMemberValue(key, s, j)
  }

  /** Past the colon between a key and its value. */
  function ValueAfterColon(s: string, i: nat): (r: Parsed<()>)
    requires i <= |s|
    ensures r.Parsed? ==> i < r.at <= |s|
  {
    var colon := Skip(s, i);
    if Has(s, colon, ':') then Parsed((), Skip(s, colon + 1)) else Fail
  }

  /** A member's value and whatever members follow it. */
  function ParseMemberValue(key: string, s: string, i: nat): (r: Parsed<map<string, Json>>)
    requires i <= |s|
    ensures r.Parsed? ==> i < r.at <= |s|
    decreases |s| - i, 1
  {
    match ParseValue(s, i)
    case Fail => Fail
    case Parsed(v, after) => MoreMembers(key, v, s, after)
  }

  /** What follows a member: the closing brace, or a comma and more members; a later key wins. */
  function MoreMembers(key: string, v: Json, s: string, i: nat): (r: Parsed<map<string, Json>>)
    requires i <= |s|
    ensures r.Parsed? ==> i < r.at <= |s|
    decreases |s| - i, 1
  {
    var j := Skip(s, i);
    if Has(s, j, '}') then Parsed(map[key := v], j + 1)
    else if Has(s, j, ',') then Under(key, v, ParseMembers(s, Skip(s, j + 1)))
    else Fail
  }

  function Under(key: string, v: Json, rest: Parsed<map<string, Json>>): Parsed<map<string, Json>> {
    match rest
    case Fail => Fail
    case Parsed(m, k) => Parsed(map[key := v] + m, k)
  }

  /** `json.loads(text)`; None stands for JSONDecodeError. */
  function Loads(text: string): Option<Json> {
    match ParseValue(text, Skip(text, 0))
    case Fail => None
    case Parsed(v, j) => if Skip(text, j) == |text| then Some(v) else None
  }

  // ----- texts cut short: p is a prefix of s -----

  /** After a number that was cut comes nothing, or the start of a part that never came. */
  predicate Dangling(p: string, j: nat) { j < |p| ==> p[j] in ".eE" }

  /** What a result becomes when the text is cut: the same if it was complete, else `cut`. */
  predicate Complete<T(==)>(whole: Parsed<T>, part: Parsed<T>, p: string) {
    whole.Parsed? ==> if whole.at <= |p| then part == whole else part.Fail?
  }

  lemma {:induction false} SkipCut(p: string, s: string, i: nat)
    requires p <= s && i <= |p|
    ensures Skip(p, i) == if Skip(s, i) <= |p| then Skip(s, i) else |p|
    decreases |p| - i
  {
    if i < |p| && IsJsonSpace(s[i]) { SkipCut(p, s, i + 1); }
  }

  lemma {:induction false} DigitsCut(p: string, s: string, i: nat)
    requires p <= s && i <= |p|
    ensures SkipDigits(p, i) == if SkipDigits(s, i) <= |p| then SkipDigits(s, i) else |p|
    decreases |p| - i
  {
    if i < |p| && IsDigit(s[i]) { DigitsCut(p, s, i + 1); }
  }

  lemma IntegerCut(p: string, s: string, i: nat)
    requires p <= s && i <= |p|
    ensures IntegerEnd(s, i) <= |p| ==> IntegerEnd(p, i) == IntegerEnd(s, i)
    ensures IntegerEnd(s, i) > |p| ==> IntegerEnd(p, i) in {i, |p|}
  {
    var d := if Has(s, i, '-') then i + 1 else i;
    if d <= |p| { DigitsCut(p, s, d); }
  }

  lemma FractionCut(p: string, s: string, i: nat)
    requires p <= s && i <= |p|
    ensures FractionEnd(s, i) <= |p| ==> FractionEnd(p, i) == FractionEnd(s, i)
    ensures FractionEnd(s, i) > |p| ==> FractionEnd(p, i) in {i, |p|} && Dangling(p, i)
  {
    if i + 1 <= |p| { DigitsCut(p, s, i + 1); }
  }

  lemma ExponentCut(p: string, s: string, i: nat)
    requires p <= s && i <= |p|
    ensures ExponentEnd(s, i) <= |p| ==> ExponentEnd(p, i) == ExponentEnd(s, i)
    ensures ExponentEnd(s, i) > |p| ==> ExponentEnd(p, i) in {i, |p|} && Dangling(p, i)
  {
    var d := if Has(s, i + 1, '+') || Has(s, i + 1, '-') then i + 2 else i + 1;
    if d <= |p| { DigitsCut(p, s, d); }
  }

  /** A number cut inside itself is no number, or a shorter one that nothing could follow. */
  lemma NumberCut(p: string, s: string, i: nat)
    requires p <= s && i <= |p| && ParseNumber(s, i).Parsed?
    ensures var whole, part := ParseNumber(s, i), ParseNumber(p, i);
            if whole.at <= |p| then part == whole else part.Fail? || Dangling(p, part.at)
  {
    IntegerCut(p, s, i);
    var a := IntegerEnd(s, i);
    if a <= |p| {
      FractionCut(p, s, a);
      var b := FractionEnd(s, a);
      if b <= |p| {
        ExponentCut(p, s, b);
        var c := ExponentEnd(s, b);
        if c <= |p| {
          assert p[i..a] == s[i..a] && p[a..b] == s[a..b] && p[b..c] == s[b..c];
        }
      }
    }
  }

  /** A cut inside the second half of a pair leaves an escape that is not finished. */
  lemma PairCut(p: string, s: string, i: nat)
    requires p <= s && HasPair(s, i) && |p| < i + 12
    ensures i + 6 <= |p| ==> ParseString(p, i + 6).Fail?
    ensures ParseChar(p, i).Parsed? ==> ParseChar(p, i).at == i + 6 <= |p|
  {
  }

  /** A string cut before its closing quote is no string. */
  lemma {:induction false} StringCut(p: string, s: string, i: nat)
    requires p <= s && i <= |p|
    ensures Complete(ParseString(s, i), ParseString(p, i), p)
    decreases |s| - i
  {
    if !Has(s, i, '"') && ParseChar(s, i).Parsed? && ParseChar(s, i).at <= |p| {
      StringCut(p, s, ParseChar(s, i).at);
    } else if HasPair(s, i) && |p| < i + 12 {
      PairCut(p, s, i);
    }
  }

  /** How the value at i reads in the cut text. */
  ghost predicate ValueCuts(p: string, s: string, i: nat)
    requires p <= s && i <= |p|
  {
    var whole, part := ParseValue(s, i), ParseValue(p, i);
    whole.Parsed? ==>
      if whole.at <= |p| then part == whole
      else (part.Fail? || Dangling(p, part.at)) && (s[i] in "[{" ==> part.Fail?)
  }

  lemma {:induction false} ValueCut(p: string, s: string, i: nat)
    requires p <= s && i <= |p|
    ensures ValueCuts(p, s, i)
    decreases |s| - i, 0
  {
    if i < |p| {
      if s[i] == '"' {
        StringCut(p, s, i + 1);
      } else if s[i] == '[' {
        ArrayCut(p, s, i);
      } else if s[i] == '{' {
        ObjectCut(p, s, i);
      } else {
        ScalarCut(p, s, i);
      }
    }
  }

  lemma {:induction false} ArrayCut(p: string, s: string, i: nat)
    requires p <= s && i < |p| && s[i] == '['
    ensures ValueCuts(p, s, i)
    decreases |s| - i - 1, 2
  {
    SkipCut(p, s, i + 1);
    if Skip(s, i + 1) <= |p| { ElementsCut(p, s, Skip(s, i + 1)); }
  }

  lemma {:induction false} ObjectCut(p: string, s: string, i: nat)
    requires p <= s && i < |p| && s[i] == '{'
    ensures ValueCuts(p, s, i)
    decreases |s| - i - 1, 2
  {
    SkipCut(p, s, i + 1);
    if Skip(s, i + 1) <= |p| { MembersCut(p, s, Skip(s, i + 1)); }
  }

  lemma WordCut(p: string, s: string, i: nat, word: string)
    requires p <= s && word != ""
    ensures HasWord(p, i, word) <==> HasWord(s, i, word) && i + |word| <= |p|
  {
    if i + |word| <= |p| { assert p[i..i + |word|] == s[i..i + |word|]; }
  }

  lemma ScalarCut(p: string, s: string, i: nat)
    requires p <= s && i < |p|
    ensures var whole, part := ParseScalar(s, i), ParseScalar(p, i);
      whole.Parsed? ==> if whole.at <= |p| then part == whole else part.Fail? || Dangling(p, part.at)
  {
    WordCut(p, s, i, "null");
    WordCut(p, s, i, "true");
    WordCut(p, s, i, "false");
    if HasWord(s, i, "null") || HasWord(s, i, "true") || HasWord(s, i, "false") {
      WordStart(s, i);
      assert IntegerEnd(p, i) == i;
    } else if ParseNumber(s, i).Parsed? {
      NumberCut(p, s, i);
    }
  }

  lemma WordStart(s: string, i: nat)
    requires HasWord(s, i, "null") || HasWord(s, i, "true") || HasWord(s, i, "false")
    ensures i < |s| && s[i] in "ntf"
  {
    assert HasWord(s, i, "false") ==> s[i..i + 5][0] == 'f';
    assert HasWord(s, i, "null") ==> s[i..i + 4][0] == 'n';
    assert HasWord(s, i, "true") ==> s[i..i + 4][0] == 't';
  }

  /** A value that was cut leaves no closing bracket and no comma. */
  lemma NothingFollows(p: string, j: nat)
    requires j <= |p| && Dangling(p, j)
    ensures Skip(p, j) == j && !Has(p, j, ',') && !Has(p, j, ']') && !Has(p, j, '}')
  {
  }

  lemma NothingMore(key: string, v: Json, p: string, j: nat)
    requires j <= |p| && Dangling(p, j)
    ensures MoreElements(v, p, j).Fail? && MoreMembers(key, v, p, j).Fail?
  {
    NothingFollows(p, j);
  }

  lemma {:induction false} ElementsCut(p: string, s: string, i: nat)
    requires p <= s && i <= |p|
    ensures Complete(ParseElements(s, i), ParseElements(p, i), p)
    decreases |s| - i, 1
  {
    ValueCut(p, s, i);
    var v, w := ParseValue(s, i), ParseValue(p, i);
    if v.Parsed? && v.at <= |p| {
      MoreElementsCut(v.value, p, s, v.at);
    } else if v.Parsed? && w.Parsed? {
      NothingMore("", w.value, p, w.at);
    }
  }

  lemma {:induction false} MoreElementsCut(v: Json, p: string, s: string, i: nat)
    requires p <= s && i <= |p|
    ensures Complete(MoreElements(v, s, i), MoreElements(v, p, i), p)
    decreases |s| - i, 1
  {
    SkipCut(p, s, i);
    var j := Skip(s, i);
    if j < |p| && Has(s, j, ',') {
      SkipCut(p, s, j + 1);
      if Skip(s, j + 1) <= |p| { ElementsCut(p, s, Skip(s, j + 1)); }
    }
  }

  lemma {:induction false} MembersCut(p: string, s: string, i: nat)
    requires p <= s && i <= |p|
    ensures Complete(ParseMembers(s, i), ParseMembers(p, i), p)
    decreases |s| - i, 1
  {
    if i < |p| && s[i] == '"' {
      StringCut(p, s, i + 1);
      var key := ParseString(s, i + 1);
      if key.Parsed? && key.at <= |p| {
        ColonCut(p, s, key.at);
        var v := ValueAfterColon(s, key.at);
        if v.Parsed? && v.at <= |p| { MemberValueCut(key.value, p, s, v.at); }
      }
    }
  }

  lemma ColonCut(p: string, s: string, i: nat)
    requires p <= s && i <= |p|
    ensures var whole, part := ValueAfterColon(s, i), ValueAfterColon(p, i);
      if whole.Parsed? && whole.at <= |p| then part == whole else part.Fail? || part.at == |p|
  {
    SkipCut(p, s, i);
    var colon := Skip(s, i);
    if colon < |p| { SkipCut(p, s, colon + 1); }
  }

  lemma {:induction false} MemberValueCut(key: string, p: string, s: string, i: nat)
    requires p <= s && i <= |p|
    ensures Complete(ParseMemberValue(key, s, i), ParseMemberValue(key, p, i), p)
    decreases |s| - i, 1
  {
    ValueCut(p, s, i);
    var v, w := ParseValue(s, i), ParseValue(p, i);
    if v.Parsed? && v.at <= |p| {
      MoreMembersCut(key, v.value, p, s, v.at);
    } else if v.Parsed? && w.Parsed? {
      NothingMore(key, w.value, p, w.at);
    }
  }

  lemma UnderCut(key: string, v: Json, whole: Parsed<map<string, Json>>, part: Parsed<map<string, Json>>, p: string)
    requires Complete(whole, part, p)
    ensures Complete(Under(key, v, whole), Under(key, v, part), p)
  {
  }

  lemma CommaCut(key: string, v: Json, p: string, s: string, i: nat, j: nat)
    requires p <= s && i <= |p| && j == Skip(s, i) == Skip(p, i) && j < |p| && s[j] == ','
    requires Complete(ParseMembers(s, Skip(s, j + 1)), ParseMembers(p, Skip(p, j + 1)), p)
    ensures Complete(MoreMembers(key, v, s, i), MoreMembers(key, v, p, i), p)
  {
    UnderCut(key, v, ParseMembers(s, Skip(s, j + 1)), ParseMembers(p, Skip(p, j + 1)), p);
  }

  lemma NoCommaCut(key: string, v: Json, p: string, s: string, i: nat, j: nat)
    requires p <= s && i <= |p| && j == Skip(s, i) && Skip(p, i) == (if j <= |p| then j else |p|)
    requires j < |p| ==> s[j] != ','
    ensures Complete(MoreMembers(key, v, s, i), MoreMembers(key, v, p, i), p)
  {
  }

  lemma {:induction false} MoreMembersCut(key: string, v: Json, p: string, s: string, i: nat)
    requires p <= s && i <= |p|
    ensures Complete(MoreMembers(key, v, s, i), MoreMembers(key, v, p, i), p)
    decreases |s| - i, 1
  {
    SkipCut(p, s, i);
    var j := Skip(s, i);
    if j < |p| && s[j] == ',' {
      SkipCut(p, s, j + 1);
      if Skip(s, j + 1) <= |p| { MembersCut(p, s, Skip(s, j + 1)); } else { NoMembers(p); }
      CommaCut(key, v, p, s, i, j);
    } else {
      NoCommaCut(key, v, p, s, i, j);
    }
  }

  lemma NoMembers(p: string)
    ensures ParseMembers(p, |p|).Fail?
  {
  }

  // ----- the theorem -----

  /** The first character that is no white space opens an object or an array. */
  predicate IsContainerText(text: string) {
    Skip(text, 0) < |text| && text[Skip(text, 0)] in "[{"
  }

  /** The position just after the value. */
  function ValueEnd(text: string): nat
    requires Loads(text).Some?
  {
    ParseValue(text, Skip(text, 0)).at
  }

  /** A JSON object or array cut short is JSON exactly when the cut spares its closing bracket. */
  lemma CutContainer(text: string, k: nat)
    requires k <= |text| && Loads(text).Some? && IsContainerText(text)
    ensures k < ValueEnd(text) ==> Loads(text[..k]).None?
    ensures k >= ValueEnd(text) ==> Loads(text[..k]) == Loads(text)
  {
    var p := text[..k];
    SkipCut(p, text, 0);
    if Skip(text, 0) <= k {
      ValueCut(p, text, Skip(text, 0));
      if k >= ValueEnd(text) { SkipCut(p, text, ValueEnd(text)); }
    }
  }

  lemma {:induction false} SpaceOnly(s: string, i: nat)
    requires i < |s| && Skip(s, i) == |s|
    ensures IsJsonSpace(s[|s| - 1])
    decreases |s| - i
  {
    if i + 1 < |s| { SpaceOnly(s, i + 1); }
  }

  /** Without trailing white space the value ends where the text does. */
  lemma ValueEndsText(text: string)
    requires Loads(text).Some? && !IsJsonSpace(text[|text| - 1])
    ensures ValueEnd(text) == |text|
  {
    if ValueEnd(text) < |text| { SpaceOnly(text, ValueEnd(text)); }
  }
}
