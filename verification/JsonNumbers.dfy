/**
  How numbers, escapes and repeated names in JSON texts read (sections 4, 6 and 7 of RFC 8259, and
  `json.loads` where that leaves a choice): what printing by the service or the middleware never shows.
 */
module JsonNumbers {
  import opened Json
  import opened Text
  import opened JsonText
  import opened JsonPrint

  // ----- numbers -----

  /** The sign of a number: none, or a minus. */
  predicate IsSign(sign: string) { sign == "" || sign == "-" }

  /** Digits without a needless zero in front. */
  predicate IsWhole(w: string) { w != "" && AllDigits(w) && (w[0] == '0' ==> |w| == 1) }

  /** A fraction part, or none. */
  predicate IsFraction(f: string) { f == "" || (f[0] == '.' && |f| >= 2 && AllDigits(f[1..])) }

  /** An exponent part, or none. */
  predicate IsExponent(e: string) {
    || e == ""
    || ((e[0] == 'e' || e[0] == 'E') && |e| >= 2 && AllDigits(e[1..]))
    || ((e[0] == 'e' || e[0] == 'E') && |e| >= 3 && (e[1] == '+' || e[1] == '-') && AllDigits(e[2..]))
  }

  lemma {:induction false} DigitsEnd(s: string, i: nat, t: string)
    requires At(s, i, t) && AllDigits(t) && !HasDigit(s, i + |t|)
    ensures SkipDigits(s, i) == i + |t|
    decreases |t|
  {
    if t != "" {
      AtHead(s, i, t);
      AtSplits(s, i, t[..1], t[1..]);
      assert t[..1] + t[1..] == t;
      DigitsEnd(s, i + 1, t[1..]);
    }
  }

  lemma WholeEnds(s: string, i: nat, sign: string, w: string)
    requires IsSign(sign) && IsWhole(w) && At(s, i, sign + w) && !HasDigit(s, i + |sign + w|)
    ensures IntegerEnd(s, i) == i + |sign + w| && (Has(s, i, '-') || HasDigit(s, i))
  {
    AtSplits(s, i, sign, w);
    AtHead(s, i + |sign|, w);
    if sign == "-" { AtHead(s, i, sign); }
    if w[0] != '0' { DigitsEnd(s, i + |sign|, w); }
  }

  lemma FractionEnds(s: string, i: nat, f: string)
    requires IsFraction(f) && At(s, i, f) && !HasDigit(s, i + |f|) && (f == "" ==> !Has(s, i, '.'))
    ensures FractionEnd(s, i) == i + |f|
  {
    if f != "" {
      AtHead(s, i, f);
      AtSplits(s, i, f[..1], f[1..]);
      assert f[..1] + f[1..] == f;
      AtHead(s, i + 1, f[1..]);
      DigitsEnd(s, i + 1, f[1..]);
    }
  }

  lemma ExponentEnds(s: string, i: nat, e: string)
    requires IsExponent(e) && At(s, i, e) && i + |e| == |s|
    ensures ExponentEnd(s, i) == i + |e|
  {
    if e != "" {
      AtHead(s, i, e);
      assert s[i + 1] == s[i..i + |e|][1];
      var d := if e[1] == '+' || e[1] == '-' then 2 else 1;
      AtSplits(s, i, e[..d], e[d..]);
      assert e[..d] + e[d..] == e;
      AtHead(s, i + d, e[d..]);
      DigitsEnd(s, i + d, e[d..]);
    }
  }

  lemma PartsStand(s: string, whole: string, f: string, e: string)
    requires s == whole + f + e
    ensures At(s, 0, whole) && At(s, |whole|, f) && At(s, |whole| + |f|, e)
  {
    Assoc(whole, f, e);
    assert s[0..|s|] == s;
    AtThree(s, 0, whole, f, e);
  }

  /** A number of the three parts of the grammar is read to its end. */
  lemma NumberReads(s: string, sign: string, w: string, f: string, e: string)
    requires IsSign(sign) && IsWhole(w) && IsFraction(f) && IsExponent(e) && s == sign + w + f + e
    ensures Loads(s) == Some(NumberValue(sign + w, f, e))
  {
    PartsStand(s, sign + w, f, e);
    PartsEnd(s, sign, w, f, e, |sign + w|, |sign + w| + |f|);
    ScalarReads(s, |sign + w|, |sign + w| + |f|, sign + w, f, e);
  }

  lemma ScalarReads(s: string, a: nat, b: nat, whole: string, f: string, e: string)
    requires 0 < a <= b <= |s| && IntegerEnd(s, 0) == a && FractionEnd(s, a) == b && ExponentEnd(s, b) == |s|
    requires Has(s, 0, '-') || HasDigit(s, 0)
    requires s[0..a] == whole && s[a..b] == f && s[b..|s|] == e
    ensures Loads(s) == Some(NumberValue(whole, f, e))
  {
    NoWord(s, 0);
    SkipsNothing(s, 0);
    SkipsNothing(s, |s|);
  }

  lemma PartsEnd(s: string, sign: string, w: string, f: string, e: string, a: nat, b: nat)
    requires IsSign(sign) && IsWhole(w) && IsFraction(f) && IsExponent(e)
    requires a == |sign + w| && b == a + |f| && b + |e| == |s|
    requires At(s, 0, sign + w) && At(s, a, f) && At(s, b, e)
    ensures IntegerEnd(s, 0) == a && FractionEnd(s, a) == b && ExponentEnd(s, b) == |s|
    ensures Has(s, 0, '-') || HasDigit(s, 0)
  {
    if f != "" { AtHead(s, a, f); }
    if e != "" { AtHead(s, b, e); }
    WholeEnds(s, 0, sign, w);
    FractionEnds(s, a, f);
    ExponentEnds(s, b, e);
  }

  /** Powers of ten, upward and downward. */
  lemma {:induction false} PowersMean(n: nat)
    ensures PowerOfTen(0) == 1.0 && PowerOfTen(n + 1) == 10.0 * PowerOfTen(n)
    ensures PowerOfTen(n) * PowerOfTen(0 - n) == 1.0
  {
    if n > 0 {
      PowersMean(n - 1);
      assert PowerOfTen(0 - n) == PowerOfTen(0 - (n - 1)) / 10.0;
    }
  }

  /** The sign and the digits of a number, whole and behind the point, as one integer. */
  function Digits(sign: string, w: string, f: string): string { sign + w + (if f == "" then "" else f[1..]) }

  lemma DigitsAreANumber(sign: string, w: string, f: string)
    requires IsSign(sign) && IsWhole(w) && IsFraction(f)
    ensures ParseInt(Digits(sign, w, f)).Some?
  {
    var d := w + (if f == "" then "" else f[1..]);
    assert Digits(sign, w, f) == sign + d && AllDigits(d);
    if sign == "-" { assert (sign + d)[1..] == d; } else { assert sign + d == d; }
  }

  /** A text for a whole number reads as an integer, and as nothing else. */
  lemma WholeReads(s: string, sign: string, w: string)
    requires IsSign(sign) && IsWhole(w) && s == sign + w
    ensures ParseInt(s).Some? && Loads(s) == Some(JInt(ParseInt(s).value))
  {
    assert s == sign + w + "" + "" && Digits(sign, w, "") == s;
    NumberReads(s, sign, w, "", "");
    DigitsAreANumber(sign, w, "");
  }

  /**
    A text with a fraction or an exponent reads as the number it spells: its digits as one integer,
    moved by the exponent less the digits behind the point.
   */
  lemma FractionReads(s: string, sign: string, w: string, f: string, e: string, n: int, x: int)
    requires IsSign(sign) && IsWhole(w) && IsFraction(f) && IsExponent(e) && (f != "" || e != "")
    requires s == sign + w + f + e && ParseInt(Digits(sign, w, f)) == Some(n)
    requires x == (if e == "" then 0 else ParseInt(e[1..]).GetOr(0)) - if f == "" then 0 else |f| - 1
    ensures Loads(s) == Some(JFloat(n as real * PowerOfTen(x)))
  {
    NumberReads(s, sign, w, f, e);
    ScaleIs(f, e, x);
    ValueOf(sign + w, f, e, Digits(sign, w, f), n, x);
  }

  lemma ValueOf(whole: string, f: string, e: string, digits: string, n: int, x: int)
    requires digits == whole + (if f == "" then "" else f[1..]) && ParseInt(digits) == Some(n) && (f != "" || e != "")
    requires x == Scale(f, e)
    ensures NumberValue(whole, f, e) == JFloat(n as real * PowerOfTen(x))
  {
  }

  lemma ScaleIs(f: string, e: string, x: int)
    requires x == (if e == "" then 0 else ParseInt(e[1..]).GetOr(0)) - if f == "" then 0 else |f| - 1
    ensures x == Scale(f, e)
  {
  }

  /** No digit may be missing behind the point, and no zero may stand in front of another digit. */
  lemma NoNumberReads(w: string)
    requires IsWhole(w)
    ensures Loads(w + ".") == None
    ensures Loads("0" + w) == None
    ensures Loads("-") == None
  {
    var point, zero := w + ".", "0" + w;
    assert point[0..|point|] == point && zero[0..|zero|] == zero;
    AtSplits(point, 0, w, ".");
    AtHead(point, |w|, ".");
    AtHead(point, 0, w);
    assert w == "" + w;
    WholeEnds(point, 0, "", w);
    NoWord(point, 0);
    SkipsNothing(point, 0);
    SkipsNothing(point, |w|);
    assert point[|w|..|w|] == "";
    LeadingZero(zero, w);
    LoneMinus("-");
  }

  lemma LoneMinus(s: string)
    requires s == "-"
    ensures Loads(s) == None
  {
    NoWord(s, 0);
    SkipsNothing(s, 0);
  }

  lemma LeadingZero(s: string, w: string)
    requires w != "" && AllDigits(w) && s == "0" + w
    ensures Loads(s) == None
  {
    assert s[0] == '0' && s[1] == w[0] && IsDigit(w[0]);
    NoWord(s, 0);
    SkipsNothing(s, 0);
    SkipsNothing(s, 1);
  }

  // ----- escapes -----

  /** The eight short escapes; any other letter behind a backslash, but for u, is no JSON, nor is a bare control. */
  lemma EscapesRead(s: string, i: nat)
    requires i < |s|
    ensures s[i] < ' ' ==> ParseChar(s, i) == Fail
    ensures s[i] == '\\' && i + 1 < |s| ==>
      && (s[i + 1] == '"' ==> ParseChar(s, i) == Parsed('"', i + 2))
      && (s[i + 1] == '\\' ==> ParseChar(s, i) == Parsed('\\', i + 2))
      && (s[i + 1] == '/' ==> ParseChar(s, i) == Parsed('/', i + 2))
      && (s[i + 1] == 'b' ==> ParseChar(s, i) == Parsed('\U{08}', i + 2))
      && (s[i + 1] == 'f' ==> ParseChar(s, i) == Parsed('\U{0C}', i + 2))
      && (s[i + 1] == 'n' ==> ParseChar(s, i) == Parsed('\n', i + 2))
      && (s[i + 1] == 'r' ==> ParseChar(s, i) == Parsed('\r', i + 2))
      && (s[i + 1] == 't' ==> ParseChar(s, i) == Parsed('\t', i + 2))
      && (s[i + 1] !in "\"\\/bfnrtu" ==> ParseChar(s, i) == Fail)
  {
  }

  /** Hexadecimal digits, in both cases. */
  lemma HexDigitsRead(d: nat)
    requires d < 16
    ensures IsHex("0123456789abcdef"[d]) && HexValue("0123456789abcdef"[d]) == d
    ensures IsHex("0123456789ABCDEF"[d]) && HexValue("0123456789ABCDEF"[d]) == d
  {
  }

  // ----- a name that comes twice -----

  /** The first of two members, up to the second. */
  lemma FirstMember(st: Style, k: string, v: Json, key: string, t: string, s: string, second: string)
    returns (e: nat)
    requires Printable(v) && key == PrintString(st, k) && t == Dumps(st, v)
    requires s == ['{'] + (key + ([':'] + (t + ([','] + second))))
    ensures Has(s, 0, '{') && Has(s, 1, '"') && Has(s, e, ',')
    ensures ParseMembers(s, 1) == MoreMembers(k, v, s, e) && At(s, e + 1, second) && e + 1 + |second| == |s|
  {
    var first := MemberText(key, t, [','] + second);
    OpenBrace(s, first);
    e := MemberReads(st, k, v, key, t, s, 1, [','] + second);
    AfterComma(s, e, second);
  }

  /** The second, up to the closing brace. */
  lemma SecondMember(st: Style, k: string, v: Json, key: string, t: string, s: string, i: nat) returns (e: nat)
    requires Printable(v) && key == PrintString(st, k) && t == Dumps(st, v) && At(s, i, key + ([':'] + (t + ['}'])))
    ensures Has(s, i, '"') && Has(s, e, '}') && e == i + |key| + 1 + |t|
    ensures ParseMembers(s, i) == MoreMembers(k, v, s, e)
  {
    e := MemberReads(st, k, v, key, t, s, i, ['}']);
    AtHead(s, e, ['}']);
  }

  /** The later of two members of one name counts. */
  lemma LaterMemberWins(st: Style, k: string, a: Json, b: Json, key: string, t: string, u: string, s: string)
    requires Printable(a) && Printable(b)
    requires key == PrintString(st, k) && t == Dumps(st, a) && u == Dumps(st, b)
    requires s == ['{'] + (key + ([':'] + (t + ([','] + (key + ([':'] + (u + ['}'])))))))
    ensures Loads(s) == Some(JObj(map[k := b]))
  {
    var second := MemberText(key, u, ['}']);
    var e := FirstMember(st, k, a, key, t, s, second);
    var e2 := SecondMember(st, k, b, key, u, s, e + 1);
    TwoMembers(s, k, a, b, e, e2);
  }

  lemma MemberText(key: string, t: string, more: string) returns (text: string)
    ensures text == key + ([':'] + (t + more)) && |text| == |key| + 1 + |t| + |more|
  {
    text := key + ([':'] + (t + more));
  }

  lemma OpenBrace(s: string, first: string)
    requires s == ['{'] + first
    ensures Has(s, 0, '{') && At(s, 1, first) && 1 + |first| == |s|
  {
    assert s[0..|s|] == s;
    AtSplits(s, 0, ['{'], first);
  }

  lemma AfterComma(s: string, e: nat, second: string)
    requires At(s, e, [','] + second)
    ensures Has(s, e, ',') && At(s, e + 1, second)
  {
    AtSplits(s, e, [','], second);
    AtHead(s, e, [',']);
  }

  /** A member and another of the same name, as they are read from the back. */
  lemma TwoMembers(s: string, k: string, a: Json, b: Json, e: nat, e2: nat)
    requires Has(s, 0, '{') && Has(s, 1, '"') && e < |s| && ParseMembers(s, 1) == MoreMembers(k, a, s, e)
    requires Has(s, e2, '}') && e2 + 1 == |s|
    requires s[e] == ',' && Has(s, e + 1, '"') && ParseMembers(s, e + 1) == MoreMembers(k, b, s, e2)
    ensures Loads(s) == Some(JObj(map[k := b]))
  {
    LastMember(k, b, s, e2);
    SkipsNothing(s, e);
    SkipsNothing(s, e + 1);
    MembersStep(k, a, map[k := b], s, e, e + 1, e2 + 1);
    assert map[k := a] + map[k := b] == map[k := b];
    ObjectStep(s, 0, map[k := b], e2 + 1);
    SkipsNothing(s, 0);
    SkipsNothing(s, |s|);
  }

  lemma MemberPlaces(key: string, t: string, more: string, s: string, i: nat)
    requires At(s, i, key + ([':'] + (t + more)))
    ensures At(s, i, key) && At(s, i + |key|, [':'])
    ensures At(s, i + |key| + 1, t) && At(s, i + |key| + 1 + |t|, more)
  {
    AtThree(s, i, key, [':'], t + more);
    AtSplits(s, i + |key| + 1, t, more);
  }

  lemma KeyReads(st: Style, k: string, key: string, s: string, i: nat, at: nat)
    requires key == PrintString(st, k) && at == i + |key| + 1
    requires At(s, i, key) && At(s, i + |key|, [':']) && at <= |s| && Skip(s, at) == at
    ensures Has(s, i, '"') && ParseMembers(s, i) == ParseMemberValue(k, s, at)
  {
    ReadKey(st, k, s, i, at);
  }

  /** A printed member, up to what stands behind it. */
  lemma MemberReads(st: Style, k: string, v: Json, key: string, t: string, s: string, i: nat, more: string)
    returns (e: nat)
    requires Printable(v) && key == PrintString(st, k) && t == Dumps(st, v)
    requires At(s, i, key + ([':'] + (t + more))) && more != "" && (more[0] == ',' || more[0] == '}')
    ensures e == i + |key| + 1 + |t| && At(s, e, more) && e < |s|
    ensures Has(s, i, '"') && ParseMembers(s, i) == MoreMembers(k, v, s, e)
  {
    var at := i + |key| + 1;
    e := at + |t|;
    MemberPlaces(key, t, more, s, i);
    AtHead(s, e, more);
    ValueReads(st, v, t, s, at);
    KeyReads(st, k, key, s, i, at);
    MemberEnd(k, v, s, at, e);
  }

  lemma ValueReads(st: Style, v: Json, t: string, s: string, at: nat)
    requires Printable(v) && t == Dumps(st, v) && At(s, at, t) && Stops(s, at + |t|)
    ensures ParseValue(s, at) == Parsed(v, at + |t|) && Skip(s, at) == at
  {
    PrintStartsPlain(st, v);
    AtHead(s, at, t);
    SkipsNothing(s, at);
    ReadValue(st, v, s, at);
  }
}
