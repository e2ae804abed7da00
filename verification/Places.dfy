/**
  The order in which the errors of a body are reported (harness/validator.py,
  `check_body_against_schema`): by their places, as Python orders lists of names and numbers.
 */
module Places {
  import opened Json
  import opened Schema

  // ----- the order -----

  /** `a <= b` on texts: by the first character that differs, else the shorter one first. */
  predicate TextNotBehind(a: string, b: string) {
    a == "" || (b != "" && if a[0] == b[0] then TextNotBehind(a[1..], b[1..]) else a[0] < b[0])
  }

  /** `a <= b` on steps; Python raises on a name against a number. */
  predicate StepNotBehind(a: Step, b: Step) {
    match a
    case Key(name) => b.Key? && TextNotBehind(name, b.name)
    case Index(at) => b.Index? && at <= b.at
  }

  /** `p <= q` on lists of steps. */
  predicate NotBehind(p: Path, q: Path) {
    p == [] || (q != [] && if p[0] == q[0] then NotBehind(p[1..], q[1..]) else StepNotBehind(p[0], q[0]))
  }

  /** Comparing the two never comes to a name against a number, so it does not raise. */
  predicate Comparable(p: Path, q: Path) {
    p == [] || q == [] || if p[0] == q[0] then Comparable(p[1..], q[1..]) else p[0].Key? == q[0].Key?
  }

  lemma {:induction false} TextsAreOrdered(a: string, b: string, c: string)
    ensures TextNotBehind(a, b) || TextNotBehind(b, a)
    ensures TextNotBehind(a, b) && TextNotBehind(b, a) ==> a == b
    ensures TextNotBehind(a, b) && TextNotBehind(b, c) ==> TextNotBehind(a, c)
    decreases |a|
  {
    if a != "" && b != "" && a[0] == b[0] {
      TextsAreOrdered(a[1..], b[1..], if c == "" then "" else c[1..]);
      assert a == [a[0]] + a[1..] && b == [b[0]] + b[1..];
    }
  }

  lemma StepsAreOrdered(a: Step, b: Step, c: Step)
    ensures a.Key? == b.Key? ==> StepNotBehind(a, b) || StepNotBehind(b, a)
    ensures StepNotBehind(a, b) && StepNotBehind(b, a) ==> a == b
    ensures StepNotBehind(a, b) && StepNotBehind(b, c) ==> StepNotBehind(a, c)
  {
    if a.Key? && b.Key? { TextsAreOrdered(a.name, b.name, if c.Key? then c.name else ""); }
  }

  /** A total order on places that compare. */
  lemma {:induction false} PlacesAreOrdered(p: Path, q: Path, r: Path)
    ensures Comparable(p, q) ==> NotBehind(p, q) || NotBehind(q, p)
    ensures NotBehind(p, q) && NotBehind(q, p) ==> p == q
    ensures NotBehind(p, q) && NotBehind(q, r) ==> NotBehind(p, r)
    decreases |p|
  {
    if p != [] && q != [] {
      StepsAreOrdered(p[0], q[0], if r == [] then p[0] else r[0]);
      if p[0] == q[0] {
        PlacesAreOrdered(p[1..], q[1..], if r == [] then [] else r[1..]);
        assert p == [p[0]] + p[1..] && q == [q[0]] + q[1..];
      } else if r != [] && p[0] == r[0] {
        StepsAreOrdered(q[0], p[0], p[0]);
      }
    }
  }

  // ----- the places of errors -----

  /** The path leads somewhere in the value. */
  predicate Leads(v: Json, p: Path) {
    p == []
    || match p[0]
       case Key(name) => v.JObj? && name in v.m && Leads(v.m[name], p[1..])
       case Index(at) => v.JArr? && at < |v.items| && Leads(v.items[at], p[1..])
  }

  /** Two places of one value compare: where they part they are both members or both items. */
  lemma {:induction false} LeadingPathsCompare(v: Json, p: Path, q: Path)
    requires Leads(v, p) && Leads(v, q)
    ensures Comparable(p, q)
    decreases |p|
  {
    if p != [] && q != [] && p[0] == q[0] {
      match p[0]
      case Key(name) => LeadingPathsCompare(v.m[name], p[1..], q[1..]);
      case Index(at) => LeadingPathsCompare(v.items[at], p[1..], q[1..]);
    }
  }

  lemma Deeper(v: Json, step: Step, path: Path, rest: Path, e: SchemaError)
    requires e.path == path + [step] + rest
    requires match step
             case Key(name) => v.JObj? && name in v.m && Leads(v.m[name], rest)
             case Index(at) => v.JArr? && at < |v.items| && Leads(v.items[at], rest)
    ensures e.path == path + ([step] + rest) && Leads(v, [step] + rest)
  {
    assert ([step] + rest)[1..] == rest;
  }

  /** Every error is at a place in the body. */
  lemma {:induction false} ErrorsLead(s: Json, v: Json, path: Path, e: SchemaError) returns (rest: Path)
    requires e in Errors(s, v, path)
    ensures e.path == path + rest && Leads(v, rest)
    decreases s
  {
    rest := [];
    if s.JObj? && "$ref" !in s.m && e.path != path {
      if e in PropertyErrors(s, v, path) {
        var ps := s.m["properties"].m;
        var k :| k in ps && k in v.m && e in Errors(ps[k], v.m[k], path + [Key(k)]);
        rest := ErrorsLead(ps[k], v.m[k], path + [Key(k)], e);
        Deeper(v, Key(k), path, rest, e);
        rest := [Key(k)] + rest;
      } else if e in ExtraErrors(s, v, path) {
        var ap := s.m["additionalProperties"];
        var k :| k in Extras(s.m, v) && k in v.m && e in Errors(ap, v.m[k], path + [Key(k)]);
        rest := ErrorsLead(ap, v.m[k], path + [Key(k)], e);
        Deeper(v, Key(k), path, rest, e);
        rest := [Key(k)] + rest;
      } else {
        var item := s.m["items"];
        var i :| 0 <= i < |v.items| && e in Errors(item, v.items[i], path + [Index(i)]);
        rest := ErrorsLead(item, v.items[i], path + [Index(i)], e);
        Deeper(v, Index(i), path, rest, e);
        rest := [Index(i)] + rest;
      }
    }
  }

  ghost predicate AllCompare(errors: set<SchemaError>) {
    forall e, f | e in errors && f in errors :: Comparable(e.path, f.path)
  }

  /** Sorting the errors of a body by place never raises, for any schema and any body. */
  lemma ErrorsCompare(s: Json, v: Json)
    ensures AllCompare(Errors(s, v, []))
  {
    forall e, f | e in Errors(s, v, []) && f in Errors(s, v, []) ensures Comparable(e.path, f.path) {
      var p := ErrorsLead(s, v, [], e);
      var q := ErrorsLead(s, v, [], f);
      assert e.path == p && f.path == q;
      LeadingPathsCompare(v, p, q);
    }
  }

  predicate IsFirst(e: SchemaError, errors: set<SchemaError>) {
    e in errors && forall f | f in errors :: NotBehind(e.path, f.path)
  }

  /** Errors whose places compare have a first one. */
  lemma {:induction false} OneIsFirst(errors: set<SchemaError>) returns (first: SchemaError)
    requires errors != {} && AllCompare(errors)
    ensures IsFirst(first, errors)
    decreases |errors|
  {
    var e :| e in errors;
    var others := errors - {e};
    assert errors == others + {e} && Comparable(e.path, e.path);
    PlacesAreOrdered(e.path, e.path, e.path);
    first := e;
    if others != {} {
      var f := OneIsFirst(others);
      PlacesAreOrdered(e.path, f.path, e.path);
      if NotBehind(e.path, f.path) {
        forall g | g in errors ensures NotBehind(e.path, g.path) { PlacesAreOrdered(e.path, f.path, g.path); }
      } else {
        first := f;
      }
    }
  }

  lemma FewerCompare(errors: set<SchemaError>, fewer: set<SchemaError>)
    requires AllCompare(errors) && fewer <= errors
    ensures AllCompare(fewer)
  {
  }

  /** From the first place on. */
  ghost predicate InOrder(es: seq<SchemaError>) {
    forall i, j | 0 <= i < j < |es| :: NotBehind(es[i].path, es[j].path)
  }

  // ----- what the order means -----

  /** What two places have in common does not count; the place of a value comes before all places in it. */
  lemma {:induction false} InsideFirst(p: Path, q: Path, r: Path)
    ensures NotBehind(p, p + q) && (NotBehind(p + q, p + r) <==> NotBehind(q, r))
  {
    if p == [] {
      assert p + q == q && p + r == r;
    } else {
      InsideFirst(p[1..], q, r);
      assert (p + q)[1..] == p[1..] + q && (p + r)[1..] == p[1..] + r;
    }
  }

  /** Items come in the order of the list, with all that is in them. */
  lemma ItemsInOrder(i: nat, j: nat, p: Path, q: Path)
    requires i < j
    ensures NotBehind([Index(i)] + p, [Index(j)] + q) && !NotBehind([Index(j)] + q, [Index(i)] + p)
  {
    assert ([Index(i)] + p)[0] == Index(i) && ([Index(j)] + q)[0] == Index(j);
  }

  /** Members come in alphabetical order, not as they stand in the body. */
  lemma MembersByName(k: string, l: string, p: Path, q: Path)
    requires k != l
    ensures NotBehind([Key(k)] + p, [Key(l)] + q) <==> TextNotBehind(k, l)
  {
    assert ([Key(k)] + p)[0] == Key(k) && ([Key(l)] + q)[0] == Key(l);
  }

  /** The first difference decides, by the codes of the characters; else the shorter name is first. */
  lemma FirstDifference(common: string, a: char, b: char, s: string, t: string)
    requires a < b
    ensures TextNotBehind(common + ([a] + s), common + ([b] + t))
    ensures !TextNotBehind(common + ([b] + t), common + ([a] + s))
    ensures TextNotBehind(common, common + ([a] + s)) && !TextNotBehind(common + ([a] + s), common)
  {
    TextsPart(common, [a] + s, [b] + t);
    TextsPart(common, "", [a] + s);
    assert common + "" == common;
  }

  lemma {:induction false} TextsPart(common: string, a: string, b: string)
    ensures TextNotBehind(common + a, common + b) <==> TextNotBehind(a, b)
    ensures TextNotBehind(common + b, common + a) <==> TextNotBehind(b, a)
  {
    if common == "" {
      assert common + a == a && common + b == b;
    } else {
      TextsPart(common[1..], a, b);
      assert (common + a)[1..] == common[1..] + a && (common + b)[1..] == common[1..] + b;
    }
  }

  // ----- the report is fixed -----

  /** The list holds every error of the set once. */
  ghost predicate Once(es: seq<SchemaError>, errors: set<SchemaError>) {
    (forall e :: e in es <==> e in errors) && |es| == |errors|
  }

  lemma {:induction false} Covers(es: seq<SchemaError>, errors: set<SchemaError>)
    requires forall e | e in errors :: e in es
    ensures |errors| <= |es|
    decreases |es|
  {
    if es == [] {
      assert errors == {};
    } else {
      var others := errors - {es[0]};
      forall e | e in others ensures e in es[1..] { assert es == [es[0]] + es[1..]; }
      Covers(es[1..], others);
      assert |errors| <= |others| + 1 by { if es[0] in errors { assert errors == others + {es[0]}; } }
    }
  }

  function Omit(es: seq<SchemaError>, i: nat): (others: seq<SchemaError>)
    requires i < |es|
    ensures |others| == |es| - 1
    ensures forall j | 0 <= j < |others| :: others[j] == if j < i then es[j] else es[j + 1]
  {
    es[..i] + es[i + 1..]
  }

  lemma OmitOne(es: seq<SchemaError>, errors: set<SchemaError>, i: nat)
    requires Once(es, errors) && i < |es|
    ensures Once(Omit(es, i), errors - {es[i]})
  {
    var others := Omit(es, i);
    forall e | e in es && e != es[i] ensures e in others { StaysIn(es, i, e); }
    if es[i] in others { Covers(others, errors); }
    forall e | e in others ensures e in es { WasIn(es, i, e); }
  }

  lemma StaysIn(es: seq<SchemaError>, i: nat, e: SchemaError)
    requires i < |es| && e in es && e != es[i]
    ensures e in Omit(es, i)
  {
    var j :| 0 <= j < |es| && es[j] == e;
    assert Omit(es, i)[if j < i then j else j - 1] == e;
  }

  lemma WasIn(es: seq<SchemaError>, i: nat, e: SchemaError)
    requires i < |es| && e in Omit(es, i)
    ensures e in es
  {
    var j :| 0 <= j < |Omit(es, i)| && Omit(es, i)[j] == e;
    assert es[if j < i then j else j + 1] == e;
  }

  lemma OmitInOrder(es: seq<SchemaError>, i: nat)
    requires InOrder(es) && i < |es|
    ensures InOrder(Omit(es, i))
  {
  }

  /** However the errors of one body are sorted, the places come out the same, one by one. */
  lemma {:induction false} SortedAlike(es: seq<SchemaError>, fs: seq<SchemaError>, errors: set<SchemaError>)
    requires Once(es, errors) && Once(fs, errors) && InOrder(es) && InOrder(fs)
    ensures |es| == |fs| && forall k | 0 <= k < |es| :: es[k].path == fs[k].path
    decreases |errors|
  {
    if es != [] {
      var e := es[0];
      assert e in fs;
      var i :| 0 <= i < |fs| && fs[i] == e;
      OmitOne(es, errors, 0);
      OmitOne(fs, errors, i);
      OmitInOrder(es, 0);
      OmitInOrder(fs, i);
      SortedAlike(Omit(es, 0), Omit(fs, i), errors - {e});
      forall k | 0 <= k <= i ensures fs[k].path == e.path { AtTheFirst(es, fs, k, i); }
      forall k | 0 <= k < |es| ensures es[k].path == fs[k].path { AlikeAt(es, fs, k, i); }
    }
  }

  lemma AlikeAt(es: seq<SchemaError>, fs: seq<SchemaError>, k: nat, i: nat)
    requires k < |es| == |fs| && i < |fs| && fs[i] == es[0]
    requires forall j | 0 <= j < |es| - 1 :: Omit(es, 0)[j].path == Omit(fs, i)[j].path
    requires forall j | 0 <= j <= i :: fs[j].path == es[0].path
    ensures es[k].path == fs[k].path
  {
    if k > 0 { assert Omit(es, 0)[k - 1].path == Omit(fs, i)[k - 1].path; }
  }

  lemma AtTheFirst(es: seq<SchemaError>, fs: seq<SchemaError>, k: nat, i: nat)
    requires InOrder(es) && InOrder(fs) && es != [] && k <= i < |fs| && fs[i] == es[0] && fs[k] in es
    ensures fs[k].path == es[0].path
  {
    var j :| 0 <= j < |es| && es[j] == fs[k];
    PlacesAreOrdered(fs[k].path, es[0].path, []);
  }
}
