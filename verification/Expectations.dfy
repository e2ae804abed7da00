/** A case's declarative assertions: harness/runner.py, `_dig` and `check_expectations`. */
module Expectations {
  import opened Json
  import opened Text
  import Schema
  import opened Validator

  /** harness/plan.py, `Expectation`; equals is None when the plan does not mention it. */
  datatype Expectation = Expectation(
    path: string, equals: Option<Json>, maxLength: Option<int>, minLength: Option<int>,
    oneOf: Option<seq<Json>>, typeName: Option<string>)

  // ----- _dig -----

  /** `xs[int(part)]`: a negative index counts from the end; None stands for an error. */
  function ListItem(xs: seq<Json>, part: string): Option<Json> {
    match ParseInt(part)
    case None => None
    case Some(i) =>
      if 0 <= i < |xs| then Some(xs[i])
      else if -|xs| <= i < 0 then Some(xs[|xs| + i])
      else None
  }

  function Member(node: Json, part: string): Option<Json> {
    match node
    case JArr(xs) => ListItem(xs, part)
    case JObj(m) => if part in m then Some(m[part]) else None
    case _ => None
  }

  function DigParts(node: Json, parts: seq<string>): Option<Json> {
    if parts == [] then Some(node)
    else
      match Member(node, parts[0])
      case None => None
      case Some(next) => DigParts(next, parts[1..])
  }

  /** `_dig(body, dotted)`; None stands for the four exceptions the caller catches. */
  function Dig(body: Json, dotted: string): Option<Json> {
    if dotted == "" then Some(body) else DigParts(body, Split(dotted, '.'))
  }

  /** `_dig` as written: a loop that moves `node` into the body. */
  method DigLoop(body: Json, dotted: string) returns (r: Option<Json>)
    ensures r == Dig(body, dotted)
  {
    if dotted == "" {
      return Some(body);
    }
    var parts := Split(dotted, '.');
    var node := body;
    for i := 0 to |parts|
      invariant DigParts(body, parts) == DigParts(node, parts[i..])
    {
      match Member(node, parts[i]) {
        case None => return None;
        case Some(next) => node := next;
      }
    }
    return Some(node);
  }

  // ----- the predicates -----

  /** `len(value)`; None stands for TypeError, which nothing catches. */
  function Length(v: Json): Option<nat> {
    match v
    case JStr(s) => Some(|s|)
    case JArr(xs) => Some(|xs|)
    case JObj(m) => Some(|m|)
    case _ => None
  }

  /**
    `isinstance(value, _JSON_TYPES[name])`; unknown names check nothing. Python's bool is an
    int, so "integer" and "number" accept true and false, whatever the comment there says.
   */
  predicate IsInstance(name: string, v: Json) {
    match name
    case "object" => v.JObj?
    case "array" => v.JArr?
    case "string" => v.JStr?
    case "integer" => v.JInt? || v.JBool?
    case "number" => v.JInt? || v.JFloat? || v.JBool?
    case "boolean" => v.JBool?
    case _ => true
  }

  const KNOWN_TYPES: set<string> := {"object", "array", "string", "integer", "number", "boolean"}

  /**
    Where the `type` predicate and the schema's `type` keyword part: true and false count as numbers
    here and not there, and a whole number written with a fraction is an "integer" there and not here.
   */
  lemma TypeCheckAgreesIff(name: string, v: Json)
    requires name in KNOWN_TYPES
    ensures (IsInstance(name, v) <==> Schema.HasType(name, v))
            <==> && !(v.JBool? && (name == "integer" || name == "number"))
                 && !(name == "integer" && v.JFloat? && v.r == v.r.Floor as real)
    ensures IsInstance("integer", JBool(true)) && !Schema.HasType("integer", JBool(true))
    ensures IsInstance("number", JBool(false)) && !Schema.HasType("number", JBool(false))
    ensures !IsInstance("integer", JFloat(1.0)) && Schema.HasType("integer", JFloat(1.0))
  {
    assert 1.0 == (1.0 as real).Floor as real;
  }

  predicate EqualsHolds(e: Expectation, v: Json) { e.equals.Some? ==> PyEqual(v, e.equals.value) }

  predicate MaxHolds(e: Expectation, v: Json)
    requires Sized(e, v)
  {
    e.maxLength.Some? ==> Length(v).value <= e.maxLength.value
  }

  predicate MinHolds(e: Expectation, v: Json)
    requires Sized(e, v)
  {
    e.minLength.Some? ==> Length(v).value >= e.minLength.value
  }

  predicate OneOfHolds(e: Expectation, v: Json) {
    e.oneOf.Some? ==> exists i | 0 <= i < |e.oneOf.value| :: PyEqual(v, e.oneOf.value[i])
  }

  predicate TypeHolds(e: Expectation, v: Json) { e.typeName.Some? ==> IsInstance(e.typeName.value, v) }

  /** A length is asked only of a value that has one. */
  predicate Sized(e: Expectation, v: Json) {
    e.maxLength.Some? || e.minLength.Some? ==> Length(v).Some?
  }

  /** The expectation holds of a body: there is a value at its path and every predicate is true of it. */
  predicate Holds(body: Json, e: Expectation) {
    && Dig(body, e.path).Some?
    && var v := Dig(body, e.path).value;
       && Sized(e, v)
       && EqualsHolds(e, v) && MaxHolds(e, v) && MinHolds(e, v) && OneOfHolds(e, v) && TypeHolds(e, v)
  }

  /** Checking the expectation raises: a length is asked of a value without one. */
  predicate Raises(body: Json, e: Expectation) {
    Dig(body, e.path).Some? && !Sized(e, Dig(body, e.path).value)
  }

  function Location(e: Expectation): string {
    if e.path == "" then "response.body" else "response.body." + e.path
  }

  function Failure(e: Expectation): Violation { Violation(ExpectationFailed, Location(e)) }

  function FailUnless(before: seq<Violation>, holds: bool, f: Violation): (after: seq<Violation>)
    ensures after == [] <==> before == [] && holds
  {
    if holds then before else before + [f]
  }

  /** The five predicates in the order they are tried; one that is not asked for holds. */
  function Checked(before: seq<Violation>, e: Expectation, v: Json): seq<Violation>
    requires Sized(e, v)
  {
    var f := Failure(e);
    var a := FailUnless(before, EqualsHolds(e, v), f);
    var b := FailUnless(a, MaxHolds(e, v), f);
    var c := FailUnless(b, MinHolds(e, v), f);
    var d := FailUnless(c, OneOfHolds(e, v), f);
    FailUnless(d, TypeHolds(e, v), f)
  }

  /** One violation per failing predicate of an expectation; an absent value is one violation. */
  function Failures(before: seq<Violation>, body: Json, e: Expectation): seq<Violation>
    requires !Raises(body, e)
  {
    match Dig(body, e.path)
    case None => before + [Failure(e)]
    case Some(v) => Checked(before, e, v)
  }

  predicate AnyRaises(body: Json, es: seq<Expectation>) {
    es != [] && (AnyRaises(body, es[..|es| - 1]) || Raises(body, es[|es| - 1]))
  }

  function AllFailures(body: Json, es: seq<Expectation>): seq<Violation>
    requires !AnyRaises(body, es)
  {
    if es == [] then [] else Failures(AllFailures(body, es[..|es| - 1]), body, es[|es| - 1])
  }

  lemma FailuresMeanHolds(before: seq<Violation>, body: Json, e: Expectation)
    requires !Raises(body, e)
    ensures Failures(before, body, e) == [] <==> before == [] && Holds(body, e)
  {
  }

  /** No violation exactly when every expectation holds. */
  lemma {:induction false} NoFailuresMeansHolds(body: Json, es: seq<Expectation>)
    requires !AnyRaises(body, es)
    ensures AllFailures(body, es) == [] <==> forall i | 0 <= i < |es| :: Holds(body, es[i])
  {
    if es != [] {
      var init := es[..|es| - 1];
      NoFailuresMeansHolds(body, init);
      FailuresMeanHolds(AllFailures(body, init), body, es[|es| - 1]);
      assert forall i | 0 <= i < |init| :: init[i] == es[i];
      if forall i | 0 <= i < |init| :: Holds(body, init[i]) {
        forall i | 0 <= i < |es| - 1 ensures Holds(body, es[i]) { assert init[i] == es[i]; }
      } else {
        var i :| 0 <= i < |init| && !Holds(body, init[i]);
        assert !Holds(body, es[i]);
      }
    }
  }

  lemma {:induction false} FirstRaiseIsEnough(body: Json, es: seq<Expectation>, i: nat)
    requires i <= |es| && AnyRaises(body, es[..i])
    ensures AnyRaises(body, es)
    decreases |es|
  {
    if i < |es| {
      assert es[..|es| - 1][..i] == es[..i];
      FirstRaiseIsEnough(body, es[..|es| - 1], i);
    } else {
      assert es[..i] == es;
    }
  }

  method CheckOne(e: Expectation, value: Json, before: seq<Violation>) returns (violations: seq<Violation>)
    requires Sized(e, value)
    ensures violations == Checked(before, e, value)
  {
    var failure := Failure(e);
    violations := FailUnless(before, EqualsHolds(e, value), failure);
    violations := FailUnless(violations, MaxHolds(e, value), failure);
    violations := FailUnless(violations, MinHolds(e, value), failure);
    violations := FailUnless(violations, OneOfHolds(e, value), failure);
    violations := FailUnless(violations, TypeHolds(e, value), failure);
  }

  /**
    `check_expectations`: every predicate of every expectation is tried, so each failing one
    adds a violation. None: the call raises TypeError.
   */
  method CheckExpectations(body: Json, es: seq<Expectation>) returns (r: Option<seq<Violation>>)
    ensures r.None? <==> AnyRaises(body, es)
    ensures r.Some? ==> r.value == AllFailures(body, es)
  {
    var violations: seq<Violation> := [];
    for i := 0 to |es|
      invariant !AnyRaises(body, es[..i])
      invariant violations == AllFailures(body, es[..i])
    {
      assert es[..i + 1][..i] == es[..i];
      var found := DigLoop(body, es[i].path);
      if found.Some? && !Sized(es[i], found.value) {
        FirstRaiseIsEnough(body, es, i + 1);
        return None;
      }
      if found.None? {
        violations := violations + [Failure(es[i])];
      } else {
        violations := CheckOne(es[i], found.value, violations);
      }
    }
    assert es[..|es|] == es;
    r := Some(violations);
  }
}
