/**
  Path templates: harness/validator.py, `_template_to_regex`, `_specificity` and
  `match_path_template`. The pattern is built the way the code builds it, by escaping the whole
  template and then replacing the escaped parameters, and is then read as a regular expression.
 */
module Paths {
  import opened Json
  import opened Text

  // ----- building the pattern -----

  /** The characters `re.escape` puts a backslash before: `()[]{}?*+-|^$\.&~#` and white space. */
  predicate IsSpecial(c: char) {
    || '\t' <= c <= '\r' || c == ' ' || '#' <= c <= '$' || c == '&' || '(' <= c <= '+'
    || '-' <= c <= '.' || c == '?' || '[' <= c <= '^' || '{' <= c <= '~'
  }

  function EscapeChar(c: char): string {
    if IsSpecial(c) then ['\\', c] else [c]
  }

  /** `re.escape(s)`. */
  function Escape(s: string): string {
    if s == "" then "" else EscapeChar(s[0]) + Escape(s[1..])
  }

  predicate StartsWith2(s: string, a: char, b: char) { |s| >= 2 && s[0] == a && s[1] == b }

  /** Past the first `\}` with no slash before it. */
  function FindClose(s: string): (r: Option<string>)
    ensures r.Some? ==> |r.value| < |s|
  {
    if StartsWith2(s, '\\', '}') then Some(s[2..])
    else if s != "" && s[0] != '/' then FindClose(s[1..])
    else None
  }

  /** What follows a parameter whose `\{` has been read; its name has at least one character. */
  function AfterParameter(s: string): (r: Option<string>)
    ensures r.Some? ==> |r.value| < |s|
  {
    if s != "" && s[0] != '/' then FindClose(s[1..]) else None
  }

  const SEGMENT: string := "[^/]+"

  /** `re.sub` of `\\\{[^/]+?\\\}` by `[^/]+`. */
  function Substitute(s: string): string
    decreases |s|
  {
    if s == "" then ""
    else if StartsWith2(s, '\\', '{') && AfterParameter(s[2..]).Some?
    then SEGMENT + Substitute(AfterParameter(s[2..]).value)
    else [s[0]] + Substitute(s[1..])
  }

  /** The part between `^` and `$` of the pattern for a template. */
  function Pattern(template: string): string { Substitute(Escape(template)) }

  // ----- reading the pattern -----

  /** The two things such a pattern is made of: a literal character, and `[^/]+`. */
  datatype Atom = Lit(c: char) | Segment

  predicate StartsSegment(p: string) {
    |p| >= 5 && p[0] == '[' && p[1] == '^' && p[2] == '/' && p[3] == ']' && p[4] == '+'
  }

  function Atoms(pattern: string): seq<Atom>
    decreases |pattern|
  {
    if pattern == "" then []
    else if StartsSegment(pattern) then [Segment] + Atoms(pattern[5..])
    else if pattern[0] == '\\' && |pattern| > 1 then [Lit(pattern[1])] + Atoms(pattern[2..])
    else [Lit(pattern[0])] + Atoms(pattern[1..])
  }

  predicate NoSlash(s: string) { '/' !in s }

  /** The atoms match all of s. */
  predicate MatchExactly(atoms: seq<Atom>, s: string) {
    if atoms == [] then s == ""
    else if atoms[0].Lit? then s != "" && s[0] == atoms[0].c && MatchExactly(atoms[1..], s[1..])
    else exists n | 1 <= n <= |s| :: NoSlash(s[..n]) && MatchExactly(atoms[1..], s[n..])
  }

  /** The atoms match s up to `$`, which Python also lets stand before a final newline. */
  predicate MatchAtoms(atoms: seq<Atom>, s: string) {
    if atoms == [] then s == "" || s == "\n"
    else if atoms[0].Lit? then s != "" && s[0] == atoms[0].c && MatchAtoms(atoms[1..], s[1..])
    else exists n | 1 <= n <= |s| :: NoSlash(s[..n]) && MatchAtoms(atoms[1..], s[n..])
  }

  /** `_template_to_regex(template).match(path)`. */
  predicate Matches(template: string, path: string) { MatchAtoms(Atoms(Pattern(template)), path) }

  // ----- what a template means -----

  /** `_PARAM.fullmatch(segment)`. */
  predicate IsParameter(segment: string) {
    && |segment| >= 3 && segment[0] == '{' && segment[|segment| - 1] == '}'
    && NoBraces(segment[1..|segment| - 1]) && NoSlash(segment)
  }

  predicate NoBraces(s: string) { '{' !in s && '}' !in s }

  /** Every segment is literal text or one parameter. */
  predicate WholeSegments(template: string) {
    forall i | 0 <= i < |Split(template, '/')| ::
      IsParameter(Split(template, '/')[i]) || NoBraces(Split(template, '/')[i])
  }

  /** Segment by segment: literals are equal, and a parameter takes one non-empty segment. */
  predicate SegmentsMatch(ts: seq<string>, ps: seq<string>) {
    && |ts| == |ps|
    && forall i | 0 <= i < |ts| :: if IsParameter(ts[i]) then ps[i] != "" else ps[i] == ts[i]
  }

  predicate PathMatches(template: string, path: string) {
    SegmentsMatch(Split(template, '/'), Split(path, '/'))
  }

  // ----- the pattern of a template, segment by segment -----

  lemma {:induction false} EscapeConcat(a: string, b: string)
    ensures Escape(a + b) == Escape(a) + Escape(b)
  {
    if a == "" {
      assert a + b == b;
    } else {
      TailOfConcat(a, b);
      EscapeConcat(a[1..], b);
      Assoc(EscapeChar(a[0]), Escape(a[1..]), Escape(b));
    }
  }

  lemma {:induction false} EscapeStartsPlain(s: string)
    ensures Escape(s) != "" ==> Escape(s)[0] != '{' && Escape(s)[0] != '}'
  {
    if s != "" { EscapedShape(s[0]); }
  }

  /** An escaped character: itself, or a backslash and itself. */
  lemma EscapedShape(c: char)
    ensures EscapeChar(c) == [c] || EscapeChar(c) == ['\\', c]
    ensures IsSpecial(c) ==> EscapeChar(c) == ['\\', c]
  {
  }

  lemma SubstituteStep(c: char, r: string)
    requires c == '\\' && r != "" ==> r[0] != '{'
    ensures Substitute([c] + r) == [c] + Substitute(r)
  {
    var s := [c] + r;
    assert s[1..] == r;
    assert r != "" ==> s[1] == r[0];
  }

  lemma SubstituteEscaped(c: char, r: string)
    requires c != '{' && c != '}' && (r != "" ==> r[0] != '{')
    ensures Substitute(EscapeChar(c) + r) == EscapeChar(c) + Substitute(r)
  {
    EscapedShape(c);
    SubstituteStep(c, r);
    if EscapeChar(c) != [c] {
      SubstituteStep('\\', [c] + r);
      assert ['\\', c] == ['\\'] + [c];
      Assoc(['\\'], [c], r);
      Assoc(['\\'], [c], Substitute(r));
    }
  }

  /** Literal text goes through the substitution as it is. */
  lemma {:induction false} SubstituteLiteral(lit: string, rest: string)
    requires NoBraces(lit)
    requires rest != "" ==> rest[0] != '{'
    ensures Substitute(Escape(lit) + rest) == Escape(lit) + Substitute(rest)
  {
    if lit == "" {
      assert Escape(lit) + rest == rest;
    } else {
      var c, r := lit[0], Escape(lit[1..]) + rest;
      SubstituteLiteral(lit[1..], rest);
      EscapeStartsPlain(lit[1..]);
      SubstituteEscaped(c, r);
      Assoc(EscapeChar(c), Escape(lit[1..]), rest);
      Assoc(EscapeChar(c), Escape(lit[1..]), Substitute(rest));
    }
  }

  lemma {:induction false} FindCloseAfter(name: string, rest: string)
    requires NoBraces(name) && NoSlash(name)
    ensures FindClose(Escape(name) + "\\}" + rest) == Some(rest)
  {
    if name == "" {
      assert Escape(name) + "\\}" + rest == "\\}" + rest;
    } else {
      FindCloseAfter(name[1..], rest);
      FindCloseSkips(name[0], Escape(name[1..]) + "\\}" + rest);
      EscapeStartsPlain(name[1..]);
      Assoc(EscapeChar(name[0]), Escape(name[1..]), "\\}");
      Assoc(EscapeChar(name[0]), Escape(name[1..]) + "\\}", rest);
    }
  }

  /** Searching for the close steps over an escaped character of the name. */
  lemma FindCloseSkips(c: char, r: string)
    requires c != '{' && c != '}' && c != '/' && r != "" && r[0] != '}'
    ensures FindClose(EscapeChar(c) + r) == FindClose(r)
    ensures FindClose((EscapeChar(c) + r)[1..]) == FindClose(r)
  {
    EscapedShape(c);
    SkipsPlain(c, r);
    SkipsBackslash(c, r);
    assert (['\\', c] + r)[1..] == [c] + r;
  }

  lemma SkipsPlain(c: char, r: string)
    requires c != '{' && c != '}' && c != '/' && r != "" && r[0] != '}'
    ensures FindClose([c] + r) == FindClose(r)
  {
    assert ([c] + r)[1..] == r;
    assert ([c] + r)[1] == r[0];
  }

  lemma SkipsBackslash(c: char, r: string)
    requires c != '}'
    ensures FindClose(['\\', c] + r) == FindClose([c] + r)
  {
    var s := ['\\', c] + r;
    assert s[1..] == [c] + r && s[1] == c;
  }

  /** A parameter becomes `[^/]+`. */
  lemma SubstituteParameter(name: string, rest: string)
    requires name != "" && NoBraces(name) && NoSlash(name)
    ensures Substitute(Escape("{" + name + "}") + rest) == SEGMENT + Substitute(rest)
  {
    var r := Escape(name[1..]) + "\\}" + rest;
    var inner := EscapeChar(name[0]) + r;
    EscapedParameter(name, rest);
    FindCloseAfter(name[1..], rest);
    EscapeStartsPlain(name[1..]);
    FindCloseSkips(name[0], r);
    assert AfterParameter(inner) == Some(rest) by { EscapedShape(name[0]); }
    var s := "\\{" + inner;
    assert s[2..] == inner;
  }

  lemma EscapedParameter(name: string, rest: string)
    requires name != ""
    ensures Escape("{" + name + "}") + rest
            == "\\{" + (EscapeChar(name[0]) + (Escape(name[1..]) + "\\}" + rest))
  {
    EscapeConcat("{" + name, "}");
    EscapeConcat("{", name);
    EscapeOne('{');
    EscapeOne('}');
    Regroup("\\{", EscapeChar(name[0]), Escape(name[1..]), "\\}", rest);
  }

  lemma Regroup(a: string, b: string, c: string, d: string, e: string)
    ensures ((a + (b + c)) + d) + e == a + (b + ((c + d) + e))
  {
  }

  lemma EscapeOne(c: char)
    ensures Escape([c]) == EscapeChar(c)
  {
    assert Escape([c][1..]) == "";
  }

  function Literals(s: string): seq<Atom> {
    if s == "" then [] else [Lit(s[0])] + Literals(s[1..])
  }

  lemma AtomStep(c: char, r: string)
    ensures Atoms(EscapeChar(c) + r) == [Lit(c)] + Atoms(r)
  {
    EscapedShape(c);
    var s := EscapeChar(c) + r;
    assert s[0] != '[';
    if EscapeChar(c) == ['\\', c] { assert s[2..] == r && s[1] == c; } else { assert s[1..] == r; }
  }

  lemma {:induction false} AtomsOfLiteral(lit: string, rest: string)
    ensures Atoms(Escape(lit) + rest) == Literals(lit) + Atoms(rest)
  {
    if lit == "" {
      assert Escape(lit) + rest == rest;
    } else {
      AtomsOfLiteral(lit[1..], rest);
      AtomStep(lit[0], Escape(lit[1..]) + rest);
      Assoc(EscapeChar(lit[0]), Escape(lit[1..]), rest);
      Assoc([Lit(lit[0])], Literals(lit[1..]), Atoms(rest));
    }
  }

  function SegmentAtoms(segment: string): seq<Atom> {
    if IsParameter(segment) then [Segment] else Literals(segment)
  }

  function TemplateAtoms(segments: seq<string>): seq<Atom>
    requires segments != []
  {
    SegmentAtoms(segments[0])
    + if |segments| == 1 then [] else [Lit('/')] + TemplateAtoms(segments[1..])
  }

  lemma ParameterAtoms(r: string)
    ensures Atoms(SEGMENT + r) == [Segment] + Atoms(r)
  {
    assert (SEGMENT + r)[5..] == r;
  }

  /** One segment, and after it the pattern of the rest. */
  lemma SegmentPattern(segment: string, rest: string)
    requires IsParameter(segment) || NoBraces(segment)
    requires rest != "" ==> rest[0] != '{'
    ensures Atoms(Substitute(Escape(segment) + rest)) == SegmentAtoms(segment) + Atoms(Substitute(rest))
  {
    if IsParameter(segment) {
      var name := segment[1..|segment| - 1];
      assert segment == "{" + name + "}";
      SubstituteParameter(name, rest);
      ParameterAtoms(Substitute(rest));
    } else {
      SubstituteLiteral(segment, rest);
      AtomsOfLiteral(segment, Substitute(rest));
    }
  }

  lemma {:induction false} PatternOfSegments(segments: seq<string>)
    requires segments != []
    requires forall i | 0 <= i < |segments| :: IsParameter(segments[i]) || NoBraces(segments[i])
    ensures Atoms(Pattern(Join(segments, '/'))) == TemplateAtoms(segments)
  {
    if |segments| == 1 {
      SegmentPattern(segments[0], "");
      assert Escape(segments[0]) + "" == Escape(segments[0]);
    } else {
      var tail := Join(segments[1..], '/');
      PatternOfSegments(segments[1..]);
      EscapeJoin(segments[0], tail);
      SegmentPattern(segments[0], ['/'] + Escape(tail));
      EscapeStartsPlain(tail);
      SubstituteStep('/', Escape(tail));
      AtomStep('/', Substitute(Escape(tail)));
      assert EscapeChar('/') == ['/'];
    }
  }

  lemma EscapeJoin(a: string, b: string)
    ensures Escape(a + ['/'] + b) == Escape(a) + (['/'] + Escape(b))
  {
    EscapeConcat(a + ['/'], b);
    EscapeConcat(a, ['/']);
    assert EscapeChar('/') == ['/'];
    assert Escape(['/']) == EscapeChar('/') + Escape("");
  }

  // ----- matching, segment by segment -----

  lemma {:induction false} DollarAllowsNewline(atoms: seq<Atom>, s: string)
    ensures MatchAtoms(atoms, s) <==>
      MatchExactly(atoms, s)
      || (s != "" && s[|s| - 1] == '\n' && MatchExactly(atoms, s[..|s| - 1]))
  {
    if atoms == [] {
    } else if atoms[0].Lit? {
      if s != "" {
        DollarAllowsNewline(atoms[1..], s[1..]);
        if |s| > 1 { assert s[..|s| - 1][1..] == s[1..][..|s| - 2]; }
      }
    } else {
      forall n | 1 <= n <= |s|
        ensures MatchAtoms(atoms[1..], s[n..]) <==>
          MatchExactly(atoms[1..], s[n..])
          || (n < |s| && s[|s| - 1] == '\n' && MatchExactly(atoms[1..], s[..|s| - 1][n..]))
        ensures n < |s| ==> s[..|s| - 1][..n] == s[..n]
      {
        DollarAllowsNewline(atoms[1..], s[n..]);
        if n < |s| { assert s[n..][..|s| - n - 1] == s[..|s| - 1][n..]; }
      }
      if s != "" && s[|s| - 1] == '\n' && MatchExactly(atoms, s[..|s| - 1]) {
        var n :| 1 <= n <= |s| - 1 && NoSlash(s[..|s| - 1][..n]) && MatchExactly(atoms[1..], s[..|s| - 1][n..]);
        assert MatchAtoms(atoms[1..], s[n..]);
      }
    }
  }

  lemma {:induction false} MatchLiteral(lit: string, atoms: seq<Atom>, s: string)
    ensures MatchExactly(Literals(lit) + atoms, s) <==> lit <= s && MatchExactly(atoms, s[|lit|..])
  {
    if lit == "" {
      assert Literals(lit) + atoms == atoms;
    } else {
      var all := Literals(lit) + atoms;
      assert all[0] == Lit(lit[0]) && all[1..] == Literals(lit[1..]) + atoms;
      if s != "" && s[0] == lit[0] {
        MatchLiteral(lit[1..], atoms, s[1..]);
        assert lit[1..] <= s[1..] <==> lit <= s by {
          assert s == [s[0]] + s[1..] && lit == [lit[0]] + lit[1..];
        }
        if lit <= s { assert s[1..][|lit| - 1..] == s[|lit|..]; }
      }
    }
  }

  /** The first segment of p is its first m characters; it is the last one, or a slash follows. */
  predicate FirstEnds(p: string, m: nat, last: bool) {
    m <= |p| && NoSlash(p[..m]) && if last then m == |p| else m < |p| && p[m] == '/'
  }

  /** Where the first segment of a path ends. */
  lemma FirstSegment(p: string)
    ensures var ps := Split(p, '/');
      && FirstEnds(p, |ps[0]|, |ps| == 1) && p[..|ps[0]|] == ps[0]
      && (|ps| > 1 ==> Split(p[|ps[0]| + 1..], '/') == ps[1..])
  {
    JoinSplit(p, '/');
    var ps := Split(p, '/');
    if |ps| > 1 {
      var tail := Join(ps[1..], '/');
      assert p == ps[0] + ['/'] + tail;
      SplitAtSeparator(ps[0], tail, '/');
      assert p[|ps[0]| + 1..] == tail;
    }
  }

  predicate FirstFits(t: string, segment: string) { if IsParameter(t) then segment != "" else segment == t }

  /** Matching is matching the first segment and the others. */
  lemma SegmentsStep(ts: seq<string>, ps: seq<string>)
    requires ts != [] && ps != []
    ensures SegmentsMatch(ts, ps) <==>
      FirstFits(ts[0], ps[0]) && SegmentsMatch(ts[1..], ps[1..])
  {
    if SegmentsMatch(ts[1..], ps[1..]) {
      assert forall i | 1 <= i < |ts| :: ts[i] == ts[1..][i - 1] && ps[i] == ps[1..][i - 1];
    }
  }

  lemma {:induction false} MatchSegments(ts: seq<string>, p: string)
    requires ts != []
    requires forall i | 0 <= i < |ts| :: NoSlash(ts[i])
    ensures MatchExactly(TemplateAtoms(ts), p) <==> SegmentsMatch(ts, Split(p, '/'))
  {
    var ps := Split(p, '/');
    FirstSegment(p);
    SegmentsStep(ts, ps);
    if |ts| > 1 && |ps| > 1 { MatchSegments(ts[1..], p[|ps[0]| + 1..]); }
    MatchFirst(ts, p, |ps[0]|, |ps| == 1);
  }

  lemma EndsOnce(p: string, m: nat, last: bool, n: nat, done: bool)
    requires FirstEnds(p, m, last) && FirstEnds(p, n, done)
    ensures m == n && last == done
  {
  }

  /** What follows the first segment: nothing when it is the last one, else the other segments. */
  predicate TailMatches(ts: seq<string>, p: string, m: nat, last: bool)
    requires ts != []
  {
    if |ts| == 1 then last else !last && m < |p| && MatchExactly(TemplateAtoms(ts[1..]), p[m + 1..])
  }

  lemma MatchFirst(ts: seq<string>, p: string, m: nat, last: bool)
    requires ts != [] && NoSlash(ts[0]) && FirstEnds(p, m, last)
    ensures MatchExactly(TemplateAtoms(ts), p) <==> FirstFits(ts[0], p[..m]) && TailMatches(ts, p, m, last)
  {
    if IsParameter(ts[0]) { MatchParameterFirst(ts, p, m, last); } else { MatchLiteralFirst(ts, p, m, last); }
  }

  lemma MatchLiteralFirst(ts: seq<string>, p: string, m: nat, last: bool)
    requires ts != [] && !IsParameter(ts[0]) && NoSlash(ts[0]) && FirstEnds(p, m, last)
    ensures MatchExactly(TemplateAtoms(ts), p) <==> p[..m] == ts[0] && TailMatches(ts, p, m, last)
  {
    var tail := TailAtoms(ts);
    MatchLiteral(ts[0], tail, p);
    if ts[0] <= p {
      TailStep(ts, tail, p, |ts[0]|, m, last);
    }
  }

  /** The atoms behind the first segment. */
  function TailAtoms(ts: seq<string>): seq<Atom>
    requires ts != []
  {
    if |ts| == 1 then [] else [Lit('/')] + TemplateAtoms(ts[1..])
  }

  /** When the first n characters are taken and the others match, then n is where the first segment ends. */
  lemma TailStep(ts: seq<string>, tail: seq<Atom>, p: string, n: nat, m: nat, last: bool)
    requires ts != [] && tail == TailAtoms(ts) && FirstEnds(p, m, last) && n <= |p| && NoSlash(p[..n])
    ensures MatchExactly(tail, p[n..]) <==> n == m && TailMatches(ts, p, m, last)
  {
    if |ts| == 1 {
      if p[n..] == "" { EndsOnce(p, m, last, n, true); }
    } else {
      assert tail[0] == Lit('/') && tail[1..] == TemplateAtoms(ts[1..]);
      if n < |p| && p[n] == '/' {
        EndsOnce(p, m, last, n, false);
        assert p[n..][1..] == p[n + 1..];
      }
    }
  }

  lemma MatchParameterFirst(ts: seq<string>, p: string, m: nat, last: bool)
    requires ts != [] && IsParameter(ts[0]) && FirstEnds(p, m, last)
    ensures MatchExactly(TemplateAtoms(ts), p) <==> p[..m] != "" && TailMatches(ts, p, m, last)
  {
    var atoms, tail := TemplateAtoms(ts), TailAtoms(ts);
    assert atoms[0] == Segment && atoms[1..] == tail;
    forall n | 1 <= n <= |p| && NoSlash(p[..n])
      ensures MatchExactly(tail, p[n..]) <==> n == m && TailMatches(ts, p, m, last)
    {
      TailStep(ts, tail, p, n, m, last);
    }
  }

  /**
    The pattern accepts exactly the paths that match the template segment by segment, and those
    same paths with a newline after them.
   */
  lemma PatternMeansSegments(template: string, path: string)
    requires WholeSegments(template)
    ensures Matches(template, path) <==>
      PathMatches(template, path)
      || (path != "" && path[|path| - 1] == '\n' && PathMatches(template, path[..|path| - 1]))
  {
    var ts := Split(template, '/');
    JoinSplit(template, '/');
    PatternOfSegments(ts);
    DollarAllowsNewline(TemplateAtoms(ts), path);
    MatchSegments(ts, path);
    if path != "" { MatchSegments(ts, path[..|path| - 1]); }
  }

  // ----- choosing among templates -----

  function StripLeft(s: string): string {
    if s != "" && s[0] == '/' then StripLeft(s[1..]) else s
  }

  function StripRight(s: string): string {
    if s != "" && s[|s| - 1] == '/' then StripRight(s[..|s| - 1]) else s
  }

  /** The number of segments that are no parameter. */
  function LiteralCount(segments: seq<string>): nat {
    if segments == [] then 0
    else (if IsParameter(segments[0]) then 0 else 1) + LiteralCount(segments[1..])
  }

  /** `_specificity(template)`. */
  function Specificity(template: string): nat {
    LiteralCount(Split(StripRight(StripLeft(template)), '/'))
  }

  /** The first of the best, as Python's `max(candidates, key=_specificity)` picks it. */
  function MostSpecific(candidates: seq<string>): (best: string)
    requires candidates != []
    ensures best in candidates
    ensures forall t | t in candidates :: Specificity(t) <= Specificity(best)
  {
    if |candidates| == 1 then candidates[0]
    else
      var rest := MostSpecific(candidates[1..]);
      if Specificity(candidates[0]) >= Specificity(rest) then candidates[0] else rest
  }

  function Candidates(templates: seq<string>, path: string): (cs: seq<string>)
    ensures forall t :: t in cs <==> t in templates && Matches(t, path)
  {
    if templates == [] then []
    else (if Matches(templates[0], path) then [templates[0]] else []) + Candidates(templates[1..], path)
  }

  /** `match_path_template`; the templates are the contract's paths in whatever order they come. */
  function MatchPathTemplate(templates: seq<string>, path: string): (chosen: Option<string>)
    ensures chosen.None? <==> forall t | t in templates :: !Matches(t, path)
    ensures chosen.Some? ==> chosen.value in templates && Matches(chosen.value, path)
    ensures chosen.Some? ==>
      forall t | t in templates && Matches(t, path) :: Specificity(t) <= Specificity(chosen.value)
  {
    var cs := Candidates(templates, path);
    if cs == [] then None else assert cs[0] in cs; Some(MostSpecific(cs))
  }

  /** Standing at position i, the first of those that match with the highest score. */
  predicate FirstOfBest(templates: seq<string>, path: string, i: nat) {
    && i < |templates| && Matches(templates[i], path)
    && (forall j | 0 <= j < i && Matches(templates[j], path) :: Specificity(templates[j]) < Specificity(templates[i]))
    && (forall j | i < j < |templates| && Matches(templates[j], path) ::
          Specificity(templates[j]) <= Specificity(templates[i]))
  }

  /** Among templates with the same score the contract's first one is chosen. */
  lemma {:induction false} FirstWins(templates: seq<string>, path: string) returns (i: nat)
    requires MatchPathTemplate(templates, path).Some?
    ensures FirstOfBest(templates, path, i) && MatchPathTemplate(templates, path) == Some(templates[i])
  {
    var t, rest := templates[0], templates[1..];
    assert templates == [t] + rest;
    var k := 0;
    if MatchPathTemplate(rest, path).Some? { k := FirstWins(rest, path); }
    i := FirstOfCons(t, rest, path, k, MatchPathTemplate(rest, path));
  }

  lemma FirstOfCons(t: string, rest: seq<string>, path: string, k: nat, before: Option<string>) returns (i: nat)
    requires before == MatchPathTemplate(rest, path) && MatchPathTemplate([t] + rest, path).Some?
    requires before.Some? ==> FirstOfBest(rest, path, k) && before == Some(rest[k])
    ensures FirstOfBest([t] + rest, path, i) && MatchPathTemplate([t] + rest, path) == Some(([t] + rest)[i])
  {
    ChosenStep(t, rest, path);
    if before.None? {
      FirstAlone(t, rest, path);
      i := 0;
    } else {
      i := FirstStep(t, rest, path, k);
    }
  }

  lemma FirstAlone(t: string, rest: seq<string>, path: string)
    requires Matches(t, path) && MatchPathTemplate(rest, path).None?
    ensures FirstOfBest([t] + rest, path, 0)
  {
    Behind(t, rest);
  }

  lemma Behind(t: string, rest: seq<string>)
    ensures ([t] + rest)[0] == t && forall j | 1 <= j < |rest| + 1 :: ([t] + rest)[j] == rest[j - 1]
  {
  }

  lemma FirstStep(t: string, rest: seq<string>, path: string, k: nat) returns (i: nat)
    requires FirstOfBest(rest, path, k)
    ensures FirstOfBest([t] + rest, path, i)
    ensures ([t] + rest)[i] == if Matches(t, path) && Specificity(t) >= Specificity(rest[k]) then t else rest[k]
  {
    if Matches(t, path) && Specificity(t) >= Specificity(rest[k]) {
      NewFirst(t, rest, path, k);
      i := 0;
    } else {
      OldFirst(t, rest, path, k);
      i := k + 1;
    }
  }

  lemma NewFirst(t: string, rest: seq<string>, path: string, k: nat)
    requires FirstOfBest(rest, path, k) && Matches(t, path) && Specificity(t) >= Specificity(rest[k])
    ensures FirstOfBest([t] + rest, path, 0)
  {
    Behind(t, rest);
    var all := [t] + rest;
    forall j | 0 < j < |all| && Matches(all[j], path) ensures Specificity(all[j]) <= Specificity(all[0]) {
      assert all[j] == rest[j - 1];
    }
  }

  lemma OldFirst(t: string, rest: seq<string>, path: string, k: nat)
    requires FirstOfBest(rest, path, k) && (Matches(t, path) ==> Specificity(t) < Specificity(rest[k]))
    ensures FirstOfBest([t] + rest, path, k + 1) && ([t] + rest)[k + 1] == rest[k]
  {
    Behind(t, rest);
    var all := [t] + rest;
    forall j | 0 <= j < k + 1 && Matches(all[j], path) ensures Specificity(all[j]) < Specificity(all[k + 1]) {
      if j > 0 { assert all[j] == rest[j - 1]; }
    }
    forall j | k + 1 < j < |all| && Matches(all[j], path) ensures Specificity(all[j]) <= Specificity(all[k + 1]) {
      assert all[j] == rest[j - 1];
    }
  }

  lemma ChosenStep(t: string, rest: seq<string>, path: string)
    ensures MatchPathTemplate([t] + rest, path)
            == if Matches(t, path)
                  && (MatchPathTemplate(rest, path).None?
                      || Specificity(t) >= Specificity(MatchPathTemplate(rest, path).value))
               then Some(t) else MatchPathTemplate(rest, path)
  {
    var cs := Candidates(rest, path);
    CandidatesStep(t, rest, path);
    if Matches(t, path) { MostStep(t, cs); } else { assert [] + cs == cs; }
  }

  lemma CandidatesStep(t: string, rest: seq<string>, path: string)
    ensures Candidates([t] + rest, path) == (if Matches(t, path) then [t] else []) + Candidates(rest, path)
  {
    assert ([t] + rest)[0] == t && ([t] + rest)[1..] == rest;
  }

  lemma MostStep(t: string, cs: seq<string>)
    ensures MostSpecific([t] + cs)
            == if cs == [] || Specificity(t) >= Specificity(MostSpecific(cs)) then t else MostSpecific(cs)
  {
    assert ([t] + cs)[0] == t && ([t] + cs)[1..] == cs;
  }

  /** Empty segments stand in the same places. */
  predicate SameEmpties(a: seq<string>, b: seq<string>) {
    |a| == |b| && forall i | 0 <= i < |a| :: a[i] == "" <==> b[i] == ""
  }

  lemma SplitFirstSlash(s: string)
    ensures s != "" && s[0] == '/' <==> |Split(s, '/')| > 1 && Split(s, '/')[0] == ""
    ensures s != "" && s[0] == '/' ==> Split(s, '/') == [""] + Split(s[1..], '/')
  {
  }

  lemma {:induction false} SplitLastSlash(s: string)
    ensures var ps := Split(s, '/');
            s != "" && s[|s| - 1] == '/' <==> |ps| > 1 && ps[|ps| - 1] == ""
    ensures s != "" && s[|s| - 1] == '/' ==> Split(s, '/') == Split(s[..|s| - 1], '/') + [""]
  {
    if |s| > 1 {
      SplitLastSlash(s[1..]);
      assert s[1..][..|s| - 2] == s[..|s| - 1][1..];
    } else if |s| == 1 {
      assert s[1..] == "" && s[..0] == "";
    }
  }

  lemma {:induction false} LiteralCountConcat(a: seq<string>, b: seq<string>)
    ensures LiteralCount(a + b) == LiteralCount(a) + LiteralCount(b)
  {
    if a == [] {
      assert a + b == b;
    } else {
      LiteralCountConcat(a[1..], b);
      assert (a + b)[1..] == a[1..] + b;
    }
  }

  /** Stripping slashes takes the same from both counts. */
  lemma {:induction false} StripLeftAlike(a: string, b: string)
    requires SameEmpties(Split(a, '/'), Split(b, '/'))
    ensures SameEmpties(Split(StripLeft(a), '/'), Split(StripLeft(b), '/'))
    ensures LiteralCount(Split(a, '/')) - LiteralCount(Split(StripLeft(a), '/'))
         == LiteralCount(Split(b, '/')) - LiteralCount(Split(StripLeft(b), '/'))
  {
    SplitFirstSlash(a);
    SplitFirstSlash(b);
    if a != "" && a[0] == '/' {
      forall i | 0 <= i < |Split(a[1..], '/')|
        ensures Split(a[1..], '/')[i] == Split(a, '/')[i + 1]
      {
      }
      StripLeftAlike(a[1..], b[1..]);
    }
  }

  lemma {:induction false} StripRightAlike(a: string, b: string)
    requires SameEmpties(Split(a, '/'), Split(b, '/'))
    ensures LiteralCount(Split(a, '/')) - LiteralCount(Split(StripRight(a), '/'))
         == LiteralCount(Split(b, '/')) - LiteralCount(Split(StripRight(b), '/'))
    decreases |a|
  {
    SplitLastSlash(a);
    SplitLastSlash(b);
    if a != "" && a[|a| - 1] == '/' {
      var x, y := a[..|a| - 1], b[..|b| - 1];
      LiteralCountConcat(Split(x, '/'), [""]);
      LiteralCountConcat(Split(y, '/'), [""]);
      forall i | 0 <= i < |Split(x, '/')| ensures Split(x, '/')[i] == Split(a, '/')[i] {
      }
      StripRightAlike(x, y);
    }
  }

  lemma {:induction false} FewerLiterals(a: seq<string>, b: seq<string>)
    requires |a| == |b| && forall i | 0 <= i < |a| :: !IsParameter(a[i]) ==> !IsParameter(b[i])
    ensures LiteralCount(a) <= LiteralCount(b)
    ensures (exists i | 0 <= i < |a| :: IsParameter(a[i]) && !IsParameter(b[i])) ==> LiteralCount(a) < LiteralCount(b)
  {
    if a != [] {
      FewerLiterals(a[1..], b[1..]);
      if exists i | 0 <= i < |a| :: IsParameter(a[i]) && !IsParameter(b[i]) {
        var i :| 0 <= i < |a| && IsParameter(a[i]) && !IsParameter(b[i]);
        if i > 0 { assert a[1..][i - 1] == a[i] && b[1..][i - 1] == b[i]; }
      }
    }
  }

  /** Of two templates that match a path, the one with more literal places scores higher. */
  lemma SpecificityOrder(a: string, b: string, path: string)
    requires PathMatches(a, path) && PathMatches(b, path)
    requires forall i | 0 <= i < |Split(a, '/')| :: !IsParameter(Split(a, '/')[i]) ==> !IsParameter(Split(b, '/')[i])
    requires exists i | 0 <= i < |Split(a, '/')| :: IsParameter(Split(a, '/')[i]) && !IsParameter(Split(b, '/')[i])
    ensures Specificity(a) < Specificity(b)
  {
    StripLeftAlike(a, b);
    StripRightAlike(StripLeft(a), StripLeft(b));
    FewerLiterals(Split(a, '/'), Split(b, '/'));
  }

  predicate EndsWithNewline(path: string) { path != "" && path[|path| - 1] == '\n' }

  /**
    Whatever the order of the contract's paths, a template is not chosen when another one that
    matches is literal wherever it is, and in one more place.
   */
  lemma SpecificBeatsParametrized(templates: seq<string>, path: string, a: string, b: string)
    requires forall t | t in templates :: WholeSegments(t)
    requires a in templates && b in templates && !EndsWithNewline(path)
    requires Matches(a, path) && Matches(b, path)
    requires forall i | 0 <= i < |Split(a, '/')| && i < |Split(b, '/')| ::
      !IsParameter(Split(a, '/')[i]) ==> !IsParameter(Split(b, '/')[i])
    requires exists i | 0 <= i < |Split(a, '/')| && i < |Split(b, '/')| ::
      IsParameter(Split(a, '/')[i]) && !IsParameter(Split(b, '/')[i])
    ensures MatchPathTemplate(templates, path).Some?
    ensures MatchPathTemplate(templates, path) != Some(a)
  {
    PatternMeansSegments(a, path);
    PatternMeansSegments(b, path);
    SpecificityOrder(a, b, path);
  }

  predicate AllLiteral(template: string) {
    forall i | 0 <= i < |Split(template, '/')| :: !IsParameter(Split(template, '/')[i])
  }

  /** A path that is itself a template without parameters is always matched to itself. */
  lemma LiteralTemplateWins(templates: seq<string>, path: string)
    requires forall t | t in templates :: WholeSegments(t)
    requires path in templates && AllLiteral(path) && !EndsWithNewline(path)
    ensures MatchPathTemplate(templates, path) == Some(path)
  {
    PatternMeansSegments(path, path);
    var chosen := MatchPathTemplate(templates, path).value;
    PatternMeansSegments(chosen, path);
    if AllLiteral(chosen) {
      assert Split(chosen, '/') == Split(path, '/');
      JoinSplit(chosen, '/');
      JoinSplit(path, '/');
    } else {
      SpecificityOrder(chosen, path, path);
    }
  }
}
