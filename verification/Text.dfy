/** The Python string operations the repository uses: split, join, strip, lower, int(). */
module Text {
  import opened Json

  lemma Assoc<T>(a: seq<T>, b: seq<T>, c: seq<T>)
    ensures a + b + c == a + (b + c)
  {
  }

  lemma TailOfConcat<T>(a: seq<T>, b: seq<T>)
    requires a != []
    ensures (a + b)[0] == a[0] && (a + b)[1..] == a[1..] + b
  {
  }

  /** `s.split(sep)`. */
  function Split(s: string, sep: char): (parts: seq<string>)
    ensures |parts| >= 1
  {
    if s == "" then [""]
    else
      var rest := Split(s[1..], sep);
      if s[0] == sep then [""] + rest else [[s[0]] + rest[0]] + rest[1..]
  }

  /** `sep.join(parts)`. */
  function Join(parts: seq<string>, sep: char): string {
    if parts == [] then ""
    else if |parts| == 1 then parts[0]
    else parts[0] + [sep] + Join(parts[1..], sep)
  }

  lemma {:induction false} SplitAtSeparator(a: string, b: string, sep: char)
    requires sep !in a
    ensures Split(a, sep) == [a]
    ensures Split(a + [sep] + b, sep) == [a] + Split(b, sep)
  {
    if a == "" {
      assert a + [sep] + b == [sep] + b;
    } else {
      SplitAtSeparator(a[1..], b, sep);
      assert (a + [sep] + b)[1..] == a[1..] + [sep] + b;
      assert [a[0]] + a[1..] == a;
    }
  }

  /** Splitting undoes joining, for parts that do not hold the separator. */
  lemma {:induction false} SplitJoin(parts: seq<string>, sep: char)
    requires parts != []
    requires forall i | 0 <= i < |parts| :: sep !in parts[i]
    ensures Split(Join(parts, sep), sep) == parts
  {
    if |parts| == 1 {
      SplitAtSeparator(parts[0], "", sep);
      assert parts == [parts[0]];
    } else {
      SplitJoin(parts[1..], sep);
      SplitAtSeparator(parts[0], Join(parts[1..], sep), sep);
      assert parts == [parts[0]] + parts[1..];
    }
  }

  lemma JoinLonger(c: char, rest: seq<string>, sep: char)
    requires rest != []
    ensures Join([[c] + rest[0]] + rest[1..], sep) == [c] + Join(rest, sep)
  {
    var parts := [[c] + rest[0]] + rest[1..];
    assert parts[1..] == rest[1..];
    if |rest| > 1 {
      Assoc([c], rest[0], [sep]);
      Assoc([c], rest[0] + [sep], Join(rest[1..], sep));
    }
  }

  lemma JoinEmptyFirst(rest: seq<string>, sep: char)
    requires rest != []
    ensures Join([""] + rest, sep) == [sep] + Join(rest, sep)
  {
    assert ([""] + rest)[1..] == rest;
    assert "" + [sep] == [sep];
  }

  /** Joining undoes splitting, and no part holds the separator. */
  lemma {:induction false} JoinSplit(s: string, sep: char)
    ensures Join(Split(s, sep), sep) == s
    ensures forall i | 0 <= i < |Split(s, sep)| :: sep !in Split(s, sep)[i]
  {
    if s != "" {
      JoinSplit(s[1..], sep);
      var rest := Split(s[1..], sep);
      assert s == [s[0]] + s[1..];
      if s[0] == sep { JoinEmptyFirst(rest, sep); } else { JoinLonger(s[0], rest, sep); }
    }
  }

  /** ASCII white space: blank, \t, \n, \v, \f, \r. */
  predicate IsSpace(c: char) { c == ' ' || '\t' <= c <= '\r' }

  function LeftStrip(s: string): (r: string)
    ensures |r| <= |s| && r == s[|s| - |r|..]
    ensures r != "" ==> !IsSpace(r[0])
  {
    if s != "" && IsSpace(s[0]) then LeftStrip(s[1..]) else s
  }

  function RightStrip(s: string): (r: string)
    ensures |r| <= |s| && r == s[..|r|]
    ensures r != "" ==> !IsSpace(r[|r| - 1])
  {
    if s != "" && IsSpace(s[|s| - 1]) then RightStrip(s[..|s| - 1]) else s
  }

  /** `s.strip()`, for ASCII white space. */
  function Strip(s: string): string { RightStrip(LeftStrip(s)) }

  predicate Stripped(s: string) {
    s != "" ==> !IsSpace(s[0]) && !IsSpace(s[|s| - 1])
  }

  /** The result of strip is a slice of the text. */
  lemma StripIsSlice(s: string)
    ensures Stripped(Strip(s))
    ensures var i := |s| - |LeftStrip(s)|;
            i + |Strip(s)| <= |s| && Strip(s) == s[i..i + |Strip(s)|]
  {
    var l := LeftStrip(s);
    var r := RightStrip(l);
    SliceOfSlice(s, |s| - |l|, |r|);
    assert r != "" ==> r[0] == l[0];
  }

  lemma SliceOfSlice(s: string, i: nat, n: nat)
    requires i + n <= |s|
    ensures s[i..][..n] == s[i..i + n]
  {
  }

  lemma StripFixed(s: string)
    requires Stripped(s)
    ensures Strip(s) == s
  {
  }

  /** Nothing but white space: blank, tab, line feed, vertical tab, form feed, carriage return. */
  predicate IsBlank(text: string) { forall i | 0 <= i < |text| :: text[i] in " \t\n\U{0B}\U{0C}\r" }

  lemma SpaceMeans(c: char)
    ensures IsSpace(c) <==> c in " \t\n\U{0B}\U{0C}\r"
  {
  }

  lemma {:induction false} LeftBlank(text: string)
    ensures LeftStrip(text) == "" <==> IsBlank(text)
  {
    if text != "" {
      SpaceMeans(text[0]);
      LeftBlank(text[1..]);
      BlankStep(text);
    }
  }

  lemma BlankStep(text: string)
    requires text != ""
    ensures IsBlank(text) <==> text[0] in " \t\n\U{0B}\U{0C}\r" && IsBlank(text[1..])
    ensures IsBlank(text) <==> IsBlank(text[..|text| - 1]) && text[|text| - 1] in " \t\n\U{0B}\U{0C}\r"
  {
    forall i | 0 <= i < |text| ensures i > 0 ==> text[i] == text[1..][i - 1] {
    }
  }

  lemma {:induction false} LeftOf(before: string, rest: string)
    requires IsBlank(before)
    ensures LeftStrip(before + rest) == LeftStrip(rest)
  {
    if before == "" {
      assert before + rest == rest;
    } else {
      SpaceMeans(before[0]);
      BlankStep(before);
      TailOfConcat(before, rest);
      LeftOf(before[1..], rest);
    }
  }

  lemma {:induction false} RightOf(middle: string, behind: string)
    requires middle != "" && !IsSpace(middle[|middle| - 1]) && IsBlank(behind)
    ensures RightStrip(middle + behind) == middle
  {
    if behind == "" {
      assert middle + behind == middle;
    } else {
      var c := behind[|behind| - 1];
      SpaceMeans(c);
      BlankStep(behind);
      RightOf(middle, behind[..|behind| - 1]);
      assert (middle + behind)[..|middle + behind| - 1] == middle + behind[..|behind| - 1];
    }
  }

  /** Stripping takes away the white space around a text, and all of a text that is nothing else. */
  lemma StripMeans(before: string, middle: string, behind: string)
    requires IsBlank(before) && IsBlank(behind) && Stripped(middle)
    ensures Strip(before + middle + behind) == middle
  {
    LeftOf(before, middle + behind);
    Assoc(before, middle, behind);
    LeftBlank(middle + behind);
    if middle == "" {
      assert middle + behind == behind;
    } else {
      RightOf(middle, behind);
    }
  }

  lemma BlankIsEmpty(text: string)
    ensures Strip(text) == "" <==> IsBlank(text)
  {
    LeftBlank(text);
    RightStripKeeps(LeftStrip(text));
  }

  lemma {:induction false} RightStripKeeps(s: string)
    ensures s != "" && !IsSpace(s[0]) ==> RightStrip(s) != ""
  {
    if |s| > 1 && IsSpace(s[|s| - 1]) { RightStripKeeps(s[..|s| - 1]); }
  }

  function LowerChar(c: char): char {
    if 'A' <= c <= 'Z' then (c as int + 32) as char else c
  }

  /** `s.lower()`, for ASCII letters. */
  function Lower(s: string): (r: string)
    ensures |r| == |s|
  {
    if s == "" then "" else [LowerChar(s[0])] + Lower(s[1..])
  }

  /** The same letter, or the same in the other case. */
  predicate SameLetter(a: char, b: char) {
    || a == b
    || ('A' <= a <= 'Z' && b as int == a as int + 32)
    || ('A' <= b <= 'Z' && a as int == b as int + 32)
  }

  lemma {:induction false} LowerEach(s: string)
    ensures forall i | 0 <= i < |s| :: Lower(s)[i] == LowerChar(s[i])
  {
    if s != "" { LowerEach(s[1..]); }
  }

  lemma LowerAlike(a: char, b: char)
    ensures LowerChar(a) == LowerChar(b) <==> SameLetter(a, b)
  {
  }

  /** Two texts have the same small letters exactly when they differ in case alone. */
  lemma LowerMeans(a: string, b: string)
    ensures Lower(a) == Lower(b) <==> |a| == |b| && forall i | 0 <= i < |a| :: SameLetter(a[i], b[i])
  {
    LowerEach(a);
    LowerEach(b);
    if |a| == |b| {
      forall i | 0 <= i < |a| ensures Lower(a)[i] == Lower(b)[i] <==> SameLetter(a[i], b[i]) {
        LowerAlike(a[i], b[i]);
      }
    }
  }

  predicate IsDigit(c: char) { '0' <= c <= '9' }

  predicate AllDigits(s: string) { forall i | 0 <= i < |s| :: IsDigit(s[i]) }

  function Digit(d: nat): char
    requires d < 10
  {
    ('0' as int + d) as char
  }

  /** `str(n)` for n >= 0. */
  function Decimal(n: nat): (s: string)
    ensures s != "" && AllDigits(s)
  {
    if n < 10 then [Digit(n)] else Decimal(n / 10) + [Digit(n % 10)]
  }

  /** `str(n)`. */
  function IntText(n: int): string { if n < 0 then "-" + Decimal(-n) else Decimal(n) }

  /** The value of a string of digits. */
  function DigitsValue(s: string): nat
    requires AllDigits(s)
  {
    if s == "" then 0
    else 10 * DigitsValue(s[..|s| - 1]) + (s[|s| - 1] as int - '0' as int)
  }

  /** `int(s)` for an optional sign and decimal digits; None stands for ValueError. */
  function ParseInt(s: string): Option<int> {
    if s == "" then None
    else if s[0] in "+-" then
      if |s| > 1 && AllDigits(s[1..])
      then Some(if s[0] == '-' then -(DigitsValue(s[1..]) as int) else DigitsValue(s[1..]))
      else None
    else if AllDigits(s) then Some(DigitsValue(s))
    else None
  }

  lemma {:induction false} DigitsValueOfDecimal(n: nat)
    ensures DigitsValue(Decimal(n)) == n
  {
    if n >= 10 {
      DigitsValueOfDecimal(n / 10);
      var s := Decimal(n);
      assert s[..|s| - 1] == Decimal(n / 10);
    }
  }

  /** The sign counts, and zeros in front do not; without digits alone behind it there is no number. */
  lemma IntegersRead(n: nat, digits: string)
    requires AllDigits(digits) && digits != ""
    ensures ParseInt(Decimal(n)) == Some(n) && ParseInt("+" + Decimal(n)) == Some(n)
    ensures ParseInt("-" + Decimal(n)).Some? && ParseInt("-" + Decimal(n)).value == -(n as int)
    ensures ParseInt("0" + digits) == ParseInt(digits)
  {
    ParseDecimal(n);
    DigitsValueOfDecimal(n);
    assert ("+" + Decimal(n))[1..] == Decimal(n) && ("-" + Decimal(n))[1..] == Decimal(n);
    ZeroInFront(digits);
  }

  lemma {:induction false} ZeroInFront(digits: string)
    requires AllDigits(digits)
    ensures AllDigits("0" + digits) && DigitsValue("0" + digits) == DigitsValue(digits)
  {
    if digits != "" {
      ZeroInFront(digits[..|digits| - 1]);
      assert ("0" + digits)[..|digits|] == "0" + digits[..|digits| - 1];
    }
  }

  lemma NoNumber(s: string)
    requires s == "" || exists i | 0 <= i < |s| :: !IsDigit(s[i]) && (i > 0 || s[i] !in "+-")
    ensures ParseInt(s) == None
  {
    if s != "" {
      var i :| 0 <= i < |s| && !IsDigit(s[i]) && (i > 0 || s[i] !in "+-");
      if i > 0 { assert s[1..][i - 1] == s[i]; }
    }
  }

  /** int(str(n)) == n. */
  lemma ParseDecimal(n: nat)
    ensures ParseInt(Decimal(n)) == Some(n)
    ensures Stripped(Decimal(n))
  {
    DigitsValueOfDecimal(n);
    var s := Decimal(n);
    assert IsDigit(s[0]) && IsDigit(s[|s| - 1]);
  }
}
