/**
  Printing JSON as Python does, and reading it back: compact and raw, as the service answers, or
  with white space after separators and everything but ASCII escaped, as the bug middleware does.
 */
module JsonPrint {
  import opened Json
  import opened Text
  import opened JsonText

  // ----- printing -----

  /** Whichever member comes next, of an object, when those with some keys are left. */
  type Order = (Json, set<string>) -> string

  /** White space, as section 2 of RFC 8259 has it: blanks, tabs, line feeds and carriage returns. */
  type Blanks = s: string | forall i | 0 <= i < |s| :: s[i] == ' ' || s[i] == '\t' || s[i] == '\n' || s[i] == '\r'

  /**
    How to print. `gap`: the white space behind commas and colons. `ascii`: everything else is escaped.
    `order`: the order of the members. The service answers with neither gaps nor escapes beyond the
    necessary; `json.dumps` on its own, which the bug middleware calls, has both.
   */
  datatype Style = Style(gap: Blanks, ascii: bool, order: Order)

  function Gap(st: Style): string { st.gap }

  function HexDigit(d: nat): char
    requires d < 16
  {
    if d < 10 then ('0' as int + d) as char else ('a' as int + d - 10) as char
  }

  /** The escape of one UTF-16 code unit. */
  function Unicode(code: nat): string
    requires code < 0x1_0000
  {
    ['\\', 'u',
     HexDigit(code / 16 / 16 / 16), HexDigit(code / 16 / 16 % 16), HexDigit(code / 16 % 16), HexDigit(code % 16)]
  }

  /** A character by its code: one escape, or a surrogate pair. */
  function PrintCode(c: char): string {
    var code := c as int;
    if code < 0x1_0000 then Unicode(code)
    else Unicode(0xD800 + (code - 0x1_0000) / 0x400) + Unicode(0xDC00 + (code - 0x1_0000) % 0x400)
  }

  function Short(c: char): Option<char> {
    match c
    case '"' => Some('"')
    case '\\' => Some('\\')
    case '\U{08}' => Some('b')
    case '\U{0C}' => Some('f')
    case '\n' => Some('n')
    case '\r' => Some('r')
    case '\t' => Some('t')
    case _ => None
  }

  function PrintChar(st: Style, c: char): (t: string)
    ensures t != ""
  {
    if Short(c).Some? then ['\\', Short(c).value]
    else if c < ' ' || (st.ascii && c > '~') then PrintCode(c)
    else [c]
  }

  function PrintChars(st: Style, cs: string): string {
    if cs == "" then "" else PrintChar(st, cs[0]) + PrintChars(st, cs[1..])
  }

  function PrintString(st: Style, cs: string): string { ['"'] + (PrintChars(st, cs) + ['"']) }

  /** Values that JSON can hold without loss: no floating point numbers. */
  predicate Printable(j: Json) {
    match j
    case JFloat(_) => false
    case JArr(xs) => forall i | 0 <= i < |xs| :: Printable(xs[i])
    case JObj(m) => forall k | k in m :: Printable(m[k])
    case _ => true
  }

  /** `json.dumps` in a style. */
  ghost function Dumps(st: Style, j: Json): string
    decreases j, 1
  {
    match j
    case JNull => "null"
    case JBool(b) => if b then "true" else "false"
    case JInt(n) => IntText(n)
    case JFloat(_) => "0.0"
    case JStr(s) => PrintString(st, s)
    case JArr(xs) => ['['] + (if xs == [] then [']'] else PrintElements(st, xs))
    case JObj(m) => ['{'] + (if m == map[] then ['}'] else PrintMembers(st, j, m.Keys))
  }

  /** The elements with commas between them, and the closing bracket. */
  ghost function PrintElements(st: Style, xs: seq<Json>): string
    requires xs != []
    decreases xs, 1
  {
    Dumps(st, xs[0]) + PrintRest(st, xs[1..])
  }

  /** What follows an element: the closing bracket, or a comma and the other elements. */
  ghost function PrintRest(st: Style, xs: seq<Json>): (t: string)
    ensures t != "" && t[0] == if xs == [] then ']' else ','
    decreases xs, 2
  {
    if xs == [] then [']'] else [','] + (Gap(st) + PrintElements(st, xs))
  }

  /** The members with these keys, commas between them, and the closing brace. */
  ghost function PrintMembers(st: Style, j: Json, keys: set<string>): string
    requires j.JObj? && keys != {} && keys <= j.m.Keys
    decreases j, 0, |keys|, 0
  {
    var k := Pick(st, j, keys);
    PrintString(st, k) + ([':'] + (Gap(st) + (Dumps(st, j.m[k]) + PrintMore(st, j, keys - {k}))))
  }

  /** What follows a member: the closing brace, or a comma and the other members. */
  ghost function PrintMore(st: Style, j: Json, keys: set<string>): (t: string)
    requires j.JObj? && keys <= j.m.Keys
    ensures t != "" && t[0] == if keys == {} then '}' else ','
    decreases j, 0, |keys|, 1
  {
    if keys == {} then ['}'] else [','] + (Gap(st) + PrintMembers(st, j, keys))
  }

  /** The next member that the order names, or any if it names none. */
  ghost function Pick(st: Style, j: Json, keys: set<string>): (k: string)
    requires keys != {}
    ensures k in keys
    ensures st.order(j, keys) in keys ==> k == st.order(j, keys)
  {
    if st.order(j, keys) in keys then st.order(j, keys) else var k :| k in keys; k
  }

  /** Printing in a style, as a function on values. */
  ghost function Printer(st: Style): Json -> string { j => Dumps(st, j) }

  // ----- text at a position -----

  /** The text t stands at position i of s. */
  predicate At(s: string, i: nat, t: string) { i + |t| <= |s| && s[i..i + |t|] == t }

  lemma AtSplits(s: string, i: nat, t: string, u: string)
    ensures At(s, i, t + u) <==> At(s, i, t) && At(s, i + |t|, u)
  {
    if At(s, i, t + u) {
      assert s[i..i + |t + u|][..|t|] == s[i..i + |t|];
      assert s[i..i + |t + u|][|t|..] == s[i + |t|..i + |t + u|];
    }
  }

  lemma AtThree(s: string, i: nat, t: string, u: string, w: string)
    requires At(s, i, t + (u + w))
    ensures At(s, i, t) && At(s, i + |t|, u) && At(s, i + |t| + |u|, w)
  {
    AtSplits(s, i, t, u + w);
    AtSplits(s, i + |t|, u, w);
  }

  lemma AtHead(s: string, i: nat, t: string)
    requires At(s, i, t) && t != ""
    ensures i < |s| && s[i] == t[0]
  {
    assert s[i..i + |t|][0] == t[0];
  }

  // ----- reading strings back -----

  lemma HexRead(d: nat)
    requires d < 16
    ensures IsHex(HexDigit(d)) && HexValue(HexDigit(d)) == d
  {
  }

  lemma PrintCharIsPlain(st: Style, c: char)
    ensures PrintChar(st, c)[0] != '"' && PrintChar(st, c)[0] >= ' '
  {
  }

  lemma ReadUnicode(code: nat, s: string, i: nat)
    requires code < 0x1_0000 && At(s, i, Unicode(code))
    ensures HasUnicode(s, i) && CodeAt(s, i) == code
  {
    var w := s[i..i + 6];
    assert s[i] == w[0] && s[i + 1] == w[1] && s[i + 2] == w[2];
    assert s[i + 3] == w[3] && s[i + 4] == w[4] && s[i + 5] == w[5];
    HexRead(code / 16 / 16 / 16);
    HexRead(code / 16 / 16 % 16);
    HexRead(code / 16 % 16);
    HexRead(code % 16);
  }

  lemma Halves(code: nat)
    requires 0x1_0000 <= code < 0x11_0000
    ensures var high, low := 0xD800 + (code - 0x1_0000) / 0x400, 0xDC00 + (code - 0x1_0000) % 0x400;
      IsHigh(high) && IsLow(low) && Joined(high, low) as int == code
  {
  }

  lemma ReadCode(c: char, s: string, i: nat)
    requires At(s, i, PrintCode(c))
    ensures ParseChar(s, i) == Parsed(c, i + |PrintCode(c)|)
  {
    var code := c as int;
    if code < 0x1_0000 {
      ReadUnicode(code, s, i);
    } else {
      var high, low := 0xD800 + (code - 0x1_0000) / 0x400, 0xDC00 + (code - 0x1_0000) % 0x400;
      Halves(code);
      AtSplits(s, i, Unicode(high), Unicode(low));
      ReadUnicode(high, s, i);
      ReadUnicode(low, s, i + 6);
    }
  }

  lemma ReadEscape(c: char, e: char, s: string, i: nat)
    requires At(s, i, ['\\', e]) && e != 'u' && Escaped(e) == Some(c)
    ensures ParseChar(s, i) == Parsed(c, i + 2)
  {
    assert s[i] == s[i..i + 2][0] && s[i + 1] == s[i..i + 2][1];
  }

  lemma ReadChar(st: Style, c: char, s: string, i: nat)
    requires At(s, i, PrintChar(st, c))
    ensures ParseChar(s, i) == Parsed(c, i + |PrintChar(st, c)|)
  {
    if Short(c).Some? { ReadEscape(c, Short(c).value, s, i); }
    else if c < ' ' || (st.ascii && c > '~') { ReadCode(c, s, i); }
    else { AtHead(s, i, [c]); }
  }

  lemma StringStep(c: char, cs: string, s: string, i: nat, j: nat, k: nat)
    requires i < |s| && s[i] != '"' && ParseChar(s, i) == Parsed(c, j)
    requires j <= |s| && ParseString(s, j) == Parsed(cs, k)
    ensures ParseString(s, i) == Parsed([c] + cs, k)
  {
  }

  lemma ClosingQuote(s: string, i: nat)
    requires At(s, i, ['"'])
    ensures ParseString(s, i) == Parsed("", i + 1)
  {
    AtHead(s, i, ['"']);
  }

  /** The printed character t stands at i, and what is read after it is known. */
  lemma CharThenRest(st: Style, c: char, cs: string, s: string, i: nat, t: string, k: nat)
    requires t == PrintChar(st, c) && At(s, i, t) && ParseString(s, i + |t|) == Parsed(cs, k)
    ensures ParseString(s, i) == Parsed([c] + cs, k)
  {
    AtHead(s, i, t);
    PrintCharIsPlain(st, c);
    ReadChar(st, c, s, i);
    StringStep(c, cs, s, i, i + |t|, k);
  }

  lemma FirstCharStands(st: Style, cs: string, s: string, i: nat)
    requires cs != "" && At(s, i, PrintChars(st, cs))
    ensures At(s, i, PrintChar(st, cs[0])) && At(s, i + |PrintChar(st, cs[0])|, PrintChars(st, cs[1..]))
    ensures |PrintChars(st, cs)| == |PrintChar(st, cs[0])| + |PrintChars(st, cs[1..])|
  {
    AtSplits(s, i, PrintChar(st, cs[0]), PrintChars(st, cs[1..]));
  }

  /** The first character stands at i, and the others are read after it. */
  lemma FirstChar(st: Style, cs: string, s: string, i: nat, k: nat)
    requires cs != "" && At(s, i, PrintChar(st, cs[0]))
    requires ParseString(s, i + |PrintChar(st, cs[0])|) == Parsed(cs[1..], k)
    ensures ParseString(s, i) == Parsed(cs, k)
  {
    CharThenRest(st, cs[0], cs[1..], s, i, PrintChar(st, cs[0]), k);
    assert [cs[0]] + cs[1..] == cs;
  }

  lemma {:induction false} ReadChars(st: Style, cs: string, s: string, i: nat)
    requires At(s, i, PrintChars(st, cs)) && At(s, i + |PrintChars(st, cs)|, ['"'])
    ensures ParseString(s, i) == Parsed(cs, i + |PrintChars(st, cs)| + 1)
  {
    if cs == "" {
      ClosingQuote(s, i);
    } else {
      FirstCharStands(st, cs, s, i);
      ReadChars(st, cs[1..], s, i + |PrintChar(st, cs[0])|);
      FirstChar(st, cs, s, i, i + |PrintChars(st, cs)| + 1);
    }
  }

  lemma ReadString(st: Style, cs: string, s: string, i: nat)
    requires At(s, i, PrintString(st, cs))
    ensures Has(s, i, '"') && ParseString(s, i + 1) == Parsed(cs, i + |PrintString(st, cs)|)
  {
    AtThree(s, i, ['"'], PrintChars(st, cs), ['"']);
    AtHead(s, i, ['"']);
    ReadChars(st, cs, s, i + 1);
  }

  // ----- reading integers back -----

  /** Nothing that could go on with a number. */
  predicate Stops(s: string, i: nat) {
    i < |s| ==> s[i] == ',' || s[i] == ']' || s[i] == '}' || IsJsonSpace(s[i])
  }

  lemma {:induction false} SkipsDigits(s: string, i: nat, t: string)
    requires At(s, i, t) && AllDigits(t) && Stops(s, i + |t|)
    ensures SkipDigits(s, i) == i + |t|
    decreases |t|
  {
    if t != "" {
      AtHead(s, i, t);
      AtSplits(s, i, t[..1], t[1..]);
      assert t[..1] + t[1..] == t;
      SkipsDigits(s, i + 1, t[1..]);
    }
  }

  lemma {:induction false} DecimalHead(n: nat)
    ensures n >= 1 ==> Decimal(n)[0] != '0'
    ensures n == 0 ==> Decimal(n) == "0"
  {
    if n >= 10 { DecimalHead(n / 10); }
  }

  lemma ReadDecimal(n: nat, s: string, d: nat)
    requires At(s, d, Decimal(n)) && Stops(s, d + |Decimal(n)|)
    ensures HasDigit(s, d)
    ensures (if Has(s, d, '0') then d + 1 else SkipDigits(s, d)) == d + |Decimal(n)|
  {
    DecimalHead(n);
    AtHead(s, d, Decimal(n));
    SkipsDigits(s, d, Decimal(n));
  }

  lemma ParseIntText(n: int)
    ensures ParseInt(IntText(n)) == Some(n)
  {
    if n < 0 {
      var t := Decimal(-n);
      DigitsValueOfDecimal(-n);
      assert ("-" + t)[1..] == t;
    } else {
      ParseDecimal(n);
    }
  }

  lemma IntegerEnds(n: int, s: string, i: nat)
    requires At(s, i, IntText(n)) && Stops(s, i + |IntText(n)|)
    ensures IntegerEnd(s, i) == i + |IntText(n)| && (Has(s, i, '-') || HasDigit(s, i))
  {
    if n < 0 {
      AtSplits(s, i, "-", Decimal(-n));
      AtHead(s, i, "-");
      ReadDecimal(-n, s, i + 1);
    } else {
      ReadDecimal(n, s, i);
    }
  }

  lemma NumberEnds(s: string, i: nat, e: nat)
    requires i < e <= |s| && IntegerEnd(s, i) == e && Stops(s, e)
    ensures ParseNumber(s, i) == Parsed(JInt(ParseInt(s[i..e]).GetOr(0)), e)
  {
    assert s[e..e] == "";
  }

  lemma NoWord(s: string, i: nat)
    requires Has(s, i, '-') || HasDigit(s, i)
    ensures !HasWord(s, i, "null") && !HasWord(s, i, "true") && !HasWord(s, i, "false")
  {
    if HasWord(s, i, "null") || HasWord(s, i, "true") || HasWord(s, i, "false") { WordStart(s, i); }
  }

  lemma ReadInt(n: int, s: string, i: nat)
    requires At(s, i, IntText(n)) && Stops(s, i + |IntText(n)|)
    ensures ParseScalar(s, i) == Parsed(JInt(n), i + |IntText(n)|)
    ensures Has(s, i, '-') || HasDigit(s, i)
  {
    IntegerEnds(n, s, i);
    ParseIntText(n);
    NumberEnds(s, i, i + |IntText(n)|);
    NoWord(s, i);
  }

  // ----- reading values back -----

  /** What a printed value starts with. */
  predicate StartsValue(s: string, i: nat) {
    i < |s| && !IsJsonSpace(s[i]) && s[i] != ']' && s[i] != '}' && s[i] != ',' && s[i] != ':'
  }

  /** Reading at i gives the value j, printed there. */
  ghost predicate ReadsAs(st: Style, j: Json, s: string, i: nat) {
    StartsValue(s, i) && ParseValue(s, i) == Parsed(j, i + |Dumps(st, j)|)
  }

  lemma ReadWord(st: Style, j: Json, s: string, i: nat)
    requires (j.JNull? || j.JBool?) && At(s, i, Dumps(st, j))
    ensures ReadsAs(st, j, s, i)
  {
    AtHead(s, i, Dumps(st, j));
    if j == JBool(true) { assert "true"[0] != "null"[0]; }
    if j == JBool(false) { assert "false"[0] != "null"[0] && "false"[0] != "true"[0]; }
    FirstOfWord(s, i);
  }

  lemma FirstOfWord(s: string, i: nat)
    ensures HasWord(s, i, "null") ==> s[i] == 'n'
    ensures HasWord(s, i, "true") ==> s[i] == 't'
    ensures HasWord(s, i, "false") ==> s[i] == 'f'
  {
    assert HasWord(s, i, "false") ==> s[i..i + 5][0] == 'f';
    assert HasWord(s, i, "null") ==> s[i..i + 4][0] == 'n';
    assert HasWord(s, i, "true") ==> s[i..i + 4][0] == 't';
  }

  lemma ReadIntValue(st: Style, n: int, s: string, i: nat)
    requires At(s, i, Dumps(st, JInt(n))) && Stops(s, i + |Dumps(st, JInt(n))|)
    ensures ReadsAs(st, JInt(n), s, i)
  {
    ReadInt(n, s, i);
  }

  lemma ReadStringValue(st: Style, cs: string, s: string, i: nat)
    requires At(s, i, Dumps(st, JStr(cs)))
    ensures ReadsAs(st, JStr(cs), s, i)
  {
    ReadString(st, cs, s, i);
  }

  lemma SkipsNothing(s: string, i: nat)
    requires i <= |s| && (i < |s| ==> !IsJsonSpace(s[i]))
    ensures Skip(s, i) == i
  {
  }

  lemma {:induction false} ReadValue(st: Style, j: Json, s: string, i: nat)
    requires Printable(j) && At(s, i, Dumps(st, j)) && Stops(s, i + |Dumps(st, j)|)
    ensures ReadsAs(st, j, s, i)
    decreases j, 1
  {
    match j
    case JInt(n) => ReadIntValue(st, n, s, i);
    case JStr(cs) => ReadStringValue(st, cs, s, i);
    case JArr(xs) => ReadArray(st, xs, s, i);
    case JObj(m) => ReadObject(st, m, s, i);
    case _ => ReadWord(st, j, s, i);
  }

  lemma PrintStartsPlain(st: Style, j: Json)
    ensures Dumps(st, j) != "" && !IsJsonSpace(Dumps(st, j)[0])
  {
    if j.JInt? {
      var t := Decimal(if j.n < 0 then -j.n else j.n);
      assert IsDigit(t[0]);
    }
  }

  /** White space is skipped up to what is none, or to the end. */
  lemma {:induction false} SkipsBlanks(gap: Blanks, s: string, i: nat)
    requires At(s, i, gap) && (i + |gap| < |s| ==> !IsJsonSpace(s[i + |gap|]))
    ensures Skip(s, i) == i + |gap|
    decreases |gap|
  {
    if gap == "" {
      SkipsNothing(s, i);
    } else {
      AtHead(s, i, gap);
      AtSplits(s, i, gap[..1], gap[1..]);
      assert gap[..1] + gap[1..] == gap;
      SkipsBlanks(gap[1..], s, i + 1);
    }
  }

  /** The white space behind a separator is skipped. */
  lemma SkipsGap(st: Style, t: string, s: string, i: nat)
    requires At(s, i, Gap(st) + t) && t != "" && !IsJsonSpace(t[0])
    ensures At(s, i + |Gap(st)|, t) && Skip(s, i) == i + |Gap(st)|
  {
    AtSplits(s, i, Gap(st), t);
    AtHead(s, i + |Gap(st)|, t);
    SkipsBlanks(st.gap, s, i);
  }

  lemma ElementsStartPlain(st: Style, xs: seq<Json>)
    requires xs != []
    ensures PrintElements(st, xs) != "" && !IsJsonSpace(PrintElements(st, xs)[0])
  {
    PrintStartsPlain(st, xs[0]);
  }

  lemma MembersStartPlain(st: Style, j: Json, keys: set<string>)
    requires j.JObj? && keys != {} && keys <= j.m.Keys
    ensures PrintMembers(st, j, keys) != "" && PrintMembers(st, j, keys)[0] == '"'
  {
  }

  /** A separator, the blank behind it, and what follows. */
  lemma SkipsComma(st: Style, t: string, s: string, i: nat)
    requires At(s, i, [','] + (Gap(st) + t)) && t != "" && !IsJsonSpace(t[0])
    ensures Has(s, i, ',') && Skip(s, i) == i && i < |s|
    ensures At(s, i + 1 + |Gap(st)|, t) && Skip(s, i + 1) == i + 1 + |Gap(st)|
  {
    AtSplits(s, i, [','], Gap(st) + t);
    AtHead(s, i, [',']);
    SkipsNothing(s, i);
    SkipsGap(st, t, s, i + 1);
  }

  lemma ArrayStep(s: string, i: nat, xs: seq<Json>, k: nat)
    requires Has(s, i, '[') && StartsValue(s, i + 1) && ParseElements(s, i + 1) == Parsed(xs, k)
    ensures ParseValue(s, i) == Parsed(JArr(xs), k)
  {
    SkipsNothing(s, i + 1);
  }

  lemma EmptyContainers(s: string, i: nat)
    ensures Has(s, i, '[') && Has(s, i + 1, ']') ==> ParseValue(s, i) == Parsed(JArr([]), i + 2)
    ensures Has(s, i, '{') && Has(s, i + 1, '}') ==> ParseValue(s, i) == Parsed(JObj(map[]), i + 2)
  {
    if i + 1 < |s| && (s[i + 1] == ']' || s[i + 1] == '}') { SkipsNothing(s, i + 1); }
  }

  lemma {:induction false} ReadArray(st: Style, xs: seq<Json>, s: string, i: nat)
    requires Printable(JArr(xs)) && At(s, i, Dumps(st, JArr(xs)))
    ensures ReadsAs(st, JArr(xs), s, i)
    decreases JArr(xs), 0
  {
    if xs == [] {
      AtSplits(s, i, ['['], [']']);
      AtHead(s, i, ['[']);
      AtHead(s, i + 1, [']']);
      EmptyContainers(s, i);
    } else {
      AtSplits(s, i, ['['], PrintElements(st, xs));
      AtHead(s, i, ['[']);
      ReadElements(st, xs, s, i + 1);
      ArrayStep(s, i, xs, i + 1 + |PrintElements(st, xs)|);
    }
  }

  lemma {:induction false} ReadElements(st: Style, xs: seq<Json>, s: string, i: nat)
    requires xs != [] && (forall k | 0 <= k < |xs| :: Printable(xs[k])) && At(s, i, PrintElements(st, xs))
    ensures StartsValue(s, i) && ParseElements(s, i) == Parsed(xs, i + |PrintElements(st, xs)|)
    decreases xs, 2
  {
    var t, tail := Dumps(st, xs[0]), PrintRest(st, xs[1..]);
    AtSplits(s, i, t, tail);
    AtHead(s, i + |t|, tail);
    ReadValue(st, xs[0], s, i);
    ReadRest(st, xs[0], xs[1..], s, i + |t|);
    assert [xs[0]] + xs[1..] == xs;
  }

  lemma ElementsStep(v: Json, xs: seq<Json>, s: string, i: nat, at: nat, e: nat)
    requires i < |s| && Skip(s, i) == i && s[i] == ',' && Skip(s, i + 1) == at
    requires ParseElements(s, at) == Parsed(xs, e)
    ensures MoreElements(v, s, i) == Parsed([v] + xs, e)
  {
  }

  lemma LastElement(v: Json, s: string, i: nat)
    requires Has(s, i, ']')
    ensures MoreElements(v, s, i) == Parsed([v], i + 1)
  {
    SkipsNothing(s, i);
  }

  lemma {:induction false} ReadRest(st: Style, v: Json, xs: seq<Json>, s: string, i: nat)
    requires (forall k | 0 <= k < |xs| :: Printable(xs[k])) && At(s, i, PrintRest(st, xs))
    ensures i <= |s| && MoreElements(v, s, i) == Parsed([v] + xs, i + |PrintRest(st, xs)|)
    decreases xs, 3
  {
    if xs == [] {
      AtHead(s, i, PrintRest(st, xs));
      LastElement(v, s, i);
      assert [v] + xs == [v];
    } else {
      var t, at := PrintElements(st, xs), i + 1 + |Gap(st)|;
      ElementsStartPlain(st, xs);
      SkipsComma(st, t, s, i);
      ReadElements(st, xs, s, at);
      ElementsStep(v, xs, s, i, at, at + |t|);
    }
  }

  lemma ObjectStep(s: string, i: nat, m: map<string, Json>, k: nat)
    requires Has(s, i, '{') && Has(s, i + 1, '"') && ParseMembers(s, i + 1) == Parsed(m, k)
    ensures ParseValue(s, i) == Parsed(JObj(m), k)
  {
    SkipsNothing(s, i + 1);
  }

  lemma {:induction false} ReadObject(st: Style, m: map<string, Json>, s: string, i: nat)
    requires Printable(JObj(m)) && At(s, i, Dumps(st, JObj(m)))
    ensures ReadsAs(st, JObj(m), s, i)
    decreases JObj(m), 0
  {
    if m == map[] {
      AtSplits(s, i, ['{'], ['}']);
      AtHead(s, i, ['{']);
      AtHead(s, i + 1, ['}']);
      EmptyContainers(s, i);
    } else {
      AtSplits(s, i, ['{'], PrintMembers(st, JObj(m), m.Keys));
      AtHead(s, i, ['{']);
      ReadMembers(st, JObj(m), m.Keys, s, i + 1);
      OnlyAll(m);
      ObjectStep(s, i, m, i + 1 + |PrintMembers(st, JObj(m), m.Keys)|);
    }
  }

  lemma OnlyAll(m: map<string, Json>)
    ensures OnlyKeys(m, m.Keys) == m
  {
  }

  function OnlyKeys(m: map<string, Json>, keys: set<string>): map<string, Json> { map k | k in m && k in keys :: m[k] }

  lemma ReadColon(s: string, c: nat, at: nat)
    requires c < |s| && s[c] == ':' && Skip(s, c + 1) == at
    ensures ValueAfterColon(s, c) == Parsed((), at)
  {
    SkipsNothing(s, c);
  }

  lemma MemberStart(k: string, s: string, i: nat, c: nat, at: nat)
    requires Has(s, i, '"') && ParseString(s, i + 1) == Parsed(k, c)
    requires c <= |s| && at <= |s| && ValueAfterColon(s, c) == Parsed((), at)
    ensures ParseMembers(s, i) == ParseMemberValue(k, s, at)
  {
  }

  lemma MemberEnd(k: string, v: Json, s: string, at: nat, e: nat)
    requires at <= |s| && e <= |s| && ParseValue(s, at) == Parsed(v, e)
    ensures ParseMemberValue(k, s, at) == MoreMembers(k, v, s, e)
  {
  }

  /** A key and its colon, and where the value starts. */
  lemma ReadKey(st: Style, k: string, s: string, i: nat, at: nat)
    requires KeyAt(PrintString(st, k), s, i, at)
    ensures Has(s, i, '"') && ParseMembers(s, i) == ParseMemberValue(k, s, at)
  {
    var c := i + |PrintString(st, k)|;
    ReadString(st, k, s, i);
    AtHead(s, c, [':']);
    ReadColon(s, c, at);
    MemberStart(k, s, i, c, at);
  }

  lemma HeadOfConcat(t: string, u: string)
    requires t != ""
    ensures t + u != "" && (t + u)[0] == t[0]
  {
  }

  /** A printed key and its colon stand at i, and what comes after them at `at`. */
  predicate KeyAt(key: string, s: string, i: nat, at: nat) {
    At(s, i, key) && At(s, i + |key|, [':']) && Skip(s, i + |key| + 1) == at
  }

  /** A key, its colon, a value and what follows, where they stand. */
  lemma MemberStands(st: Style, whole: string, key: string, t: string, more: string, s: string, i: nat, at: nat)
    requires At(s, i, whole) && whole == key + ([':'] + (Gap(st) + (t + more)))
    requires t != "" && !IsJsonSpace(t[0]) && at == i + |key| + 1 + |Gap(st)|
    ensures KeyAt(key, s, i, at)
    ensures At(s, at, t) && At(s, at + |t|, more) && i + |whole| == at + |t| + |more|
  {
    HeadOfConcat(t, more);
    KeyStands(st, key, t + more, s, i, at);
    AtSplits(s, at, t, more);
  }

  lemma KeyStands(st: Style, key: string, text: string, s: string, i: nat, at: nat)
    requires At(s, i, key + ([':'] + (Gap(st) + text))) && text != "" && !IsJsonSpace(text[0])
    requires at == i + |key| + 1 + |Gap(st)|
    ensures KeyAt(key, s, i, at) && At(s, at, text)
  {
    AtThree(s, i, key, [':'], Gap(st) + text);
    SkipsGap(st, text, s, i + |key| + 1);
  }

  /** A value and the members behind it stand here. */
  ghost predicate MemberAt(st: Style, j: Json, k: string, rest: set<string>, s: string, at: nat)
    requires j.JObj? && k in j.m && rest <= j.m.Keys
  {
    At(s, at, Dumps(st, j.m[k])) && At(s, at + |Dumps(st, j.m[k])|, PrintMore(st, j, rest))
  }

  /** What is printed for the members: the one picked, and the others. */
  lemma MembersText(st: Style, j: Json, keys: set<string>, k: string, key: string, t: string, more: string)
    requires j.JObj? && keys != {} && keys <= j.m.Keys && k == Pick(st, j, keys)
    requires key == PrintString(st, k) && t == Dumps(st, j.m[k]) && more == PrintMore(st, j, keys - {k})
    ensures PrintMembers(st, j, keys) == key + ([':'] + (Gap(st) + (t + more)))
  {
  }

  /** Where the key of the member that is printed first stands. */
  lemma FirstKeyStands(st: Style, j: Json, keys: set<string>, k: string, s: string, i: nat, at: nat)
    requires j.JObj? && keys != {} && keys <= j.m.Keys && k == Pick(st, j, keys)
    requires At(s, i, PrintMembers(st, j, keys)) && at == i + |PrintString(st, k)| + 1 + |Gap(st)|
    ensures KeyAt(PrintString(st, k), s, i, at)
  {
    var key, t, more := PrintString(st, k), Dumps(st, j.m[k]), PrintMore(st, j, keys - {k});
    MembersText(st, j, keys, k, key, t, more);
    PrintStartsPlain(st, j.m[k]);
    MemberStands(st, PrintMembers(st, j, keys), key, t, more, s, i, at);
  }

  /** Where its value stands, and what follows it. */
  lemma FirstValueStands(st: Style, j: Json, keys: set<string>, k: string, s: string, i: nat, at: nat)
    requires j.JObj? && keys != {} && keys <= j.m.Keys && k == Pick(st, j, keys)
    requires At(s, i, PrintMembers(st, j, keys)) && at == i + |PrintString(st, k)| + 1 + |Gap(st)|
    ensures MemberAt(st, j, k, keys - {k}, s, at)
    ensures i + |PrintMembers(st, j, keys)| == at + |Dumps(st, j.m[k])| + |PrintMore(st, j, keys - {k})|
  {
    var key, t, more := PrintString(st, k), Dumps(st, j.m[k]), PrintMore(st, j, keys - {k});
    MembersText(st, j, keys, k, key, t, more);
    PrintStartsPlain(st, j.m[k]);
    MemberStands(st, PrintMembers(st, j, keys), key, t, more, s, i, at);
  }

  lemma {:induction false} ReadMembers(st: Style, j: Json, keys: set<string>, s: string, i: nat)
    requires j.JObj? && Printable(j) && keys != {} && keys <= j.m.Keys && At(s, i, PrintMembers(st, j, keys))
    ensures Has(s, i, '"') && ParseMembers(s, i) == Parsed(OnlyKeys(j.m, keys), i + |PrintMembers(st, j, keys)|)
    decreases j, 0, |keys|, 0
  {
    var k := Pick(st, j, keys);
    var at := i + |PrintString(st, k)| + 1 + |Gap(st)|;
    FirstKeyStands(st, j, keys, k, s, i, at);
    FirstValueStands(st, j, keys, k, s, i, at);
    ReadKey(st, k, s, i, at);
    ReadMember(st, j, k, keys - {k}, s, at);
    OnlyStep(j.m, keys, k);
  }

  /** A value and the members after it. */
  lemma {:induction false} ReadMember(st: Style, j: Json, k: string, rest: set<string>, s: string, at: nat)
    requires j.JObj? && Printable(j) && k in j.m && rest <= j.m.Keys && MemberAt(st, j, k, rest, s, at)
    ensures ParseMemberValue(k, s, at)
            == Parsed(map[k := j.m[k]] + OnlyKeys(j.m, rest), at + |Dumps(st, j.m[k])| + |PrintMore(st, j, rest)|)
    decreases j, 0, |rest|, 2
  {
    var e := at + |Dumps(st, j.m[k])|;
    AtHead(s, e, PrintMore(st, j, rest));
    ReadValue(st, j.m[k], s, at);
    MemberEnd(k, j.m[k], s, at, e);
    ReadMore(st, j, k, rest, s, e);
  }

  lemma OnlyStep(m: map<string, Json>, keys: set<string>, k: string)
    requires k in keys && k in m
    ensures OnlyKeys(m, keys) == map[k := m[k]] + OnlyKeys(m, keys - {k})
  {
  }

  lemma OnlyNone(m: map<string, Json>, k: string)
    requires k in m
    ensures map[k := m[k]] + OnlyKeys(m, {}) == map[k := m[k]]
  {
  }

  lemma MembersStep(key: string, v: Json, m: map<string, Json>, s: string, i: nat, at: nat, e: nat)
    requires i < |s| && Skip(s, i) == i && s[i] == ',' && Skip(s, i + 1) == at
    requires ParseMembers(s, at) == Parsed(m, e)
    ensures MoreMembers(key, v, s, i) == Parsed(map[key := v] + m, e)
  {
  }

  lemma LastMember(key: string, v: Json, s: string, i: nat)
    requires Has(s, i, '}')
    ensures MoreMembers(key, v, s, i) == Parsed(map[key := v], i + 1)
  {
    SkipsNothing(s, i);
  }

  lemma {:induction false} ReadMore(st: Style, j: Json, key: string, keys: set<string>, s: string, i: nat)
    requires j.JObj? && Printable(j) && key in j.m && keys <= j.m.Keys && At(s, i, PrintMore(st, j, keys))
    ensures i <= |s|
    ensures MoreMembers(key, j.m[key], s, i)
            == Parsed(map[key := j.m[key]] + OnlyKeys(j.m, keys), i + |PrintMore(st, j, keys)|)
    decreases j, 0, |keys|, 1
  {
    if keys == {} {
      AtHead(s, i, PrintMore(st, j, keys));
      LastMember(key, j.m[key], s, i);
      OnlyNone(j.m, key);
    } else {
      var t, at := PrintMembers(st, j, keys), i + 1 + |Gap(st)|;
      MembersStartPlain(st, j, keys);
      SkipsComma(st, t, s, i);
      ReadMembers(st, j, keys, s, at);
      MembersStep(key, j.m[key], OnlyKeys(j.m, keys), s, i, at, at + |t|);
    }
  }

  /** What is printed in any style reads back. */
  lemma PrintedReadsBack(st: Style, j: Json)
    requires Printable(j)
    ensures Loads(Dumps(st, j)) == Some(j)
  {
    SurroundedReadsBack(st, j, "", "");
    assert "" + Dumps(st, j) + "" == Dumps(st, j);
  }

  /** So it does with white space around it. */
  lemma SurroundedReadsBack(st: Style, j: Json, before: Blanks, behind: Blanks)
    requires Printable(j)
    ensures Loads(before + Dumps(st, j) + behind) == Some(j)
  {
    var t := Dumps(st, j);
    var s := before + t + behind;
    PrintStartsPlain(st, j);
    SkipsAround(before, t, behind);
    ReadValue(st, j, s, |before|);
    ReadsWhole(st, j, s, |before|);
  }

  lemma SkipsAround(before: Blanks, t: string, behind: Blanks)
    requires t != "" && !IsJsonSpace(t[0])
    ensures var s := before + t + behind;
            At(s, |before|, t) && Stops(s, |before| + |t|)
            && Skip(s, 0) == |before| && Skip(s, |before| + |t|) == |s|
  {
    var s := before + t + behind;
    StandsBetween(before, t, behind);
    AtHead(s, |before|, t);
    SkipsBlanks(before, s, 0);
    SkipsBlanks(behind, s, |before| + |t|);
    if behind != "" { AtHead(s, |before| + |t|, behind); }
  }

  lemma StandsBetween(before: string, t: string, behind: string)
    ensures var s := before + t + behind;
            At(s, 0, before) && At(s, |before|, t) && At(s, |before| + |t|, behind)
  {
    var s := before + t + behind;
    assert s == before + (t + behind) && s[0..|s|] == s;
    AtSplits(s, 0, before, t + behind);
    AtSplits(s, |before|, t, behind);
  }

  lemma ReadsWhole(st: Style, j: Json, s: string, i: nat)
    requires Skip(s, 0) == i && ReadsAs(st, j, s, i)
    requires i + |Dumps(st, j)| <= |s| && Skip(s, i + |Dumps(st, j)|) == |s|
    ensures Loads(s) == Some(j)
  {
  }

  /** A text that starts with anything but white space and what a value can start with is no JSON. */
  lemma StrayIsNoJson(s: string)
    requires s != "" && s[0] !in " \t\n\r" && s[0] !in "\"[{-0123456789tfn"
    ensures Loads(s) == None
  {
    SkipsNothing(s, 0);
    FirstOfWord(s, 0);
    assert IntegerEnd(s, 0) == 0;
  }

  // ----- where printed objects and arrays end -----

  predicate EndsWith(t: string, c: char) { t != "" && t[|t| - 1] == c }

  lemma EndOfConcat(t: string, u: string, c: char)
    requires EndsWith(u, c)
    ensures EndsWith(t + u, c)
  {
  }

  lemma {:induction false} ElementsEnd(st: Style, xs: seq<Json>)
    requires xs != []
    ensures EndsWith(PrintElements(st, xs), ']')
    decreases |xs|
  {
    if |xs| == 1 {
      assert xs[1..] == [];
    } else {
      ElementsEnd(st, xs[1..]);
      EndOfConcat(Gap(st), PrintElements(st, xs[1..]), ']');
      EndOfConcat([','], Gap(st) + PrintElements(st, xs[1..]), ']');
    }
    EndOfConcat(Dumps(st, xs[0]), PrintRest(st, xs[1..]), ']');
  }

  lemma MemberEnds(st: Style, k: string, t: string, more: string)
    requires EndsWith(more, '}')
    ensures EndsWith(PrintString(st, k) + ([':'] + (Gap(st) + (t + more))), '}')
  {
    EndOfConcat(t, more, '}');
    EndOfConcat(Gap(st), t + more, '}');
    EndOfConcat([':'], Gap(st) + (t + more), '}');
    EndOfConcat(PrintString(st, k), [':'] + (Gap(st) + (t + more)), '}');
  }

  lemma {:induction false} MembersEnd(st: Style, j: Json, keys: set<string>)
    requires j.JObj? && keys != {} && keys <= j.m.Keys
    ensures EndsWith(PrintMembers(st, j, keys), '}')
    decreases |keys|
  {
    var k := Pick(st, j, keys);
    var rest := keys - {k};
    if rest != {} {
      MembersEnd(st, j, rest);
      EndOfConcat(Gap(st), PrintMembers(st, j, rest), '}');
      EndOfConcat([','], Gap(st) + PrintMembers(st, j, rest), '}');
    }
    MemberEnds(st, k, Dumps(st, j.m[k]), PrintMore(st, j, rest));
  }

  /** A printed object or array starts and ends with its brackets. */
  lemma PrintedContainer(st: Style, j: Json)
    requires j.JArr? || j.JObj?
    ensures IsContainerText(Dumps(st, j)) && !IsJsonSpace(Dumps(st, j)[|Dumps(st, j)| - 1])
  {
    var t := Dumps(st, j);
    if j.JArr? {
      if j.items != [] {
        ElementsEnd(st, j.items);
        EndOfConcat(['['], PrintElements(st, j.items), ']');
      }
    } else if j.m != map[] {
      MembersEnd(st, j, j.m.Keys);
      EndOfConcat(['{'], PrintMembers(st, j, j.m.Keys), '}');
    }
    SkipsNothing(t, 0);
  }
}
