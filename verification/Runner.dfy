/** Running one case: harness/runner.py, `run_case`, over a network that loses messages. */
module Runner {
  import opened Json
  import opened JsonText
  import opened Schema
  import opened Places
  import opened Paths
  import opened Validator
  import opened Expectations
  import opened Plan

  // ----- the network -----

  /** What becomes of one attempt: the request may be lost, or the answer to it. */
  datatype Fate = Delivered | RequestLost | ResponseLost

  /** A service as the network sees it: what it holds, and its answer to a request. */
  type Endpoint<!S> = (S, Request) -> (S, HttpResponse)

  /** A transport whose n-th request meets the n-th fate; the harness is the only client. */
  class Wire<S> {
    const service: Endpoint<S>
    const fates: nat -> Fate
    var state: S
    var sent: nat

    constructor (service: Endpoint<S>, fates: nat -> Fate, state: S)
      ensures this.service == service && this.fates == fates && this.state == state && sent == 0
    {
      this.service, this.fates, this.state, this.sent := service, fates, state, 0;
    }

    /** `transport.request`; None stands for a transport error. */
    method Send(request: Request) returns (answer: Option<HttpResponse>)
      modifies this
      ensures sent == old(sent) + 1
      ensures state == if fates(old(sent)).RequestLost? then old(state) else service(old(state), request).0
      ensures answer == if fates(old(sent)).Delivered? then Some(service(old(state), request).1) else None
    {
      var fate := fates(sent);
      sent := sent + 1;
      if fate.RequestLost? { return None; }
      var (next, response) := service(state, request);
      state := next;
      answer := if fate.Delivered? then Some(response) else None;
    }
  }

  /** How a retry loop ends: the service's state, the answer that came, the attempts made. */
  datatype Played<S> = Played(state: S, answer: Option<HttpResponse>, attempts: nat)

  /** Up to `budget` attempts from the fate number `from` on, stopping at the first answer. */
  function Play<S>(service: Endpoint<S>, s: S, request: Request, fates: nat -> Fate, from: nat, budget: int): Played<S>
    decreases budget
  {
    if budget <= 0 then Played(s, None, 0)
    else
      match fates(from)
      case Delivered => Played(service(s, request).0, Some(service(s, request).1), 1)
      case RequestLost =>
        var rest := Play(service, s, request, fates, from + 1, budget - 1);
        rest.(attempts := rest.attempts + 1)
      case ResponseLost =>
        var rest := Play(service, service(s, request).0, request, fates, from + 1, budget - 1);
        rest.(attempts := rest.attempts + 1)
  }

  // ----- the verdict -----

  /** `schema` in `run_case`. */
  function SchemaFor(c: Contract, k: TestCase, r: HttpResponse): SchemaLookup {
    match MatchPathTemplate(c.paths, k.request.path)
    case None => NoSchema
    case Some(template) =>
      if template == "" then NoSchema else ResponseSchema(c, k.request.httpMethod, template, r.statusCode)
  }

  /** The body is looked at only when a schema or an expectation applies. */
  predicate LooksAtBody(c: Contract, k: TestCase, r: HttpResponse) {
    SchemaFor(c, k, r).Declared? || k.expectations != []
  }

  /** A value that the schema and the expectations are applied to: JSON, and not null. */
  predicate HasValue(r: HttpResponse) { Loads(r.text).Some? && Loads(r.text).value != JNull }

  /** Judging raises: a reference in the contract does not resolve, or a length has no meaning. */
  predicate JudgingRaises(c: Contract, k: TestCase, r: HttpResponse) {
    || SchemaFor(c, k, r).Unresolvable?
    || (HasValue(r) && AnyRaises(Loads(r.text).value, k.expectations))
  }

  /** Every check the harness stands for, with no order and no list. */
  ghost predicate Satisfies(c: Contract, k: TestCase, r: HttpResponse) {
    && r.statusCode == k.expectStatus
    && KeepsPromises(c, r)
    && (LooksAtBody(c, k, r) ==> Loads(r.text).Some?)
    && (HasValue(r) ==>
          && (SchemaFor(c, k, r).Declared? ==> Accepts(SchemaFor(c, k, r).schema, Loads(r.text).value))
          && forall i | 0 <= i < |k.expectations| :: Holds(Loads(r.text).value, k.expectations[i]))
  }

  function SchemaErrorsOf(c: Contract, k: TestCase, r: HttpResponse): set<SchemaError> {
    if SchemaFor(c, k, r).Declared? && HasValue(r)
    then Errors(SchemaFor(c, k, r).schema, Loads(r.text).value, [])
    else {}
  }

  function StatusViolations(k: TestCase, r: HttpResponse): seq<Violation> {
    if r.statusCode != k.expectStatus then [Violation(ExpectationFailed, "response.status")] else []
  }

  function NotJsonViolations(c: Contract, k: TestCase, r: HttpResponse): seq<Violation> {
    if LooksAtBody(c, k, r) && Loads(r.text).None? then [Violation(BodyNotJson, "response.body")] else []
  }

  /** The violations that come before the body's own. */
  function FirstViolations(c: Contract, k: TestCase, r: HttpResponse): seq<Violation> {
    StatusViolations(k, r) + CheckResponse(c, r) + NotJsonViolations(c, k, r)
  }

  function LastViolations(c: Contract, k: TestCase, r: HttpResponse): seq<Violation>
    requires !JudgingRaises(c, k, r)
  {
    if HasValue(r) then AllFailures(Loads(r.text).value, k.expectations) else []
  }

  function ToViolations(es: seq<SchemaError>): seq<Violation> {
    seq(|es|, i requires 0 <= i < |es| => ToViolation(es[i]))
  }

  /** The list is status and contract violations, then one per schema error, then expectations. */
  ghost predicate IsVerdict(vs: seq<Violation>, c: Contract, k: TestCase, r: HttpResponse)
    requires !JudgingRaises(c, k, r)
  {
    exists es :: Lists(es, SchemaErrorsOf(c, k, r))
      && vs == FirstViolations(c, k, r) + ToViolations(es) + LastViolations(c, k, r)
  }

  /** A report on one response always has the same places, from the first to the last. */
  lemma ReportsAlike(vs: seq<Violation>, ws: seq<Violation>, c: Contract, k: TestCase, r: HttpResponse)
    requires !JudgingRaises(c, k, r) && IsVerdict(vs, c, k, r) && IsVerdict(ws, c, k, r)
    ensures |vs| == |ws| && forall i | 0 <= i < |vs| :: vs[i].location == ws[i].location
  {
    var errors := SchemaErrorsOf(c, k, r);
    var es :| Lists(es, errors) && vs == FirstViolations(c, k, r) + ToViolations(es) + LastViolations(c, k, r);
    var fs :| Lists(fs, errors) && ws == FirstViolations(c, k, r) + ToViolations(fs) + LastViolations(c, k, r);
    SortedAlike(es, fs, errors);
    Between(FirstViolations(c, k, r), ToViolations(es), ToViolations(fs), LastViolations(c, k, r));
  }

  lemma Between(first: seq<Violation>, xs: seq<Violation>, ys: seq<Violation>, last: seq<Violation>)
    requires |xs| == |ys| && forall i | 0 <= i < |xs| :: xs[i].location == ys[i].location
    ensures var vs, ws := first + xs + last, first + ys + last;
            |vs| == |ws| && forall i | 0 <= i < |vs| :: vs[i].location == ws[i].location
  {
  }

  /** A verdict is empty exactly when the response satisfies every check. */
  lemma VerdictIsExact(vs: seq<Violation>, c: Contract, k: TestCase, r: HttpResponse)
    requires !JudgingRaises(c, k, r) && IsVerdict(vs, c, k, r)
    ensures vs == [] <==> Satisfies(c, k, r)
  {
    var es :| Lists(es, SchemaErrorsOf(c, k, r))
      && vs == FirstViolations(c, k, r) + ToViolations(es) + LastViolations(c, k, r);
    CheckResponseExact(c, r);
    assert es == [] <==> SchemaErrorsOf(c, k, r) == {} by {
      if es != [] { assert es[0] in SchemaErrorsOf(c, k, r); }
    }
    if HasValue(r) {
      NoFailuresMeansHolds(Loads(r.text).value, k.expectations);
      if SchemaFor(c, k, r).Declared? {
        NoErrorsMeansAccepts(SchemaFor(c, k, r).schema, Loads(r.text).value, []);
      }
    }
    assert vs == [] <==>
      FirstViolations(c, k, r) == [] && ToViolations(es) == [] && LastViolations(c, k, r) == [];
  }

  /** The checks as the plan and the contract word them: null is a body like any other. */
  ghost predicate SatisfiesInFull(c: Contract, k: TestCase, r: HttpResponse) {
    && r.statusCode == k.expectStatus
    && KeepsPromises(c, r)
    && (LooksAtBody(c, k, r) ==> Loads(r.text).Some? && BodySatisfies(c, k, r, Loads(r.text).value))
  }

  ghost predicate BodySatisfies(c: Contract, k: TestCase, r: HttpResponse, body: Json) {
    && (SchemaFor(c, k, r).Declared? ==> Accepts(SchemaFor(c, k, r).schema, body))
    && forall i | 0 <= i < |k.expectations| :: Holds(body, k.expectations[i])
  }

  /**
    An empty verdict hides a failure exactly when the body is null, and null fails the schema or an
    expectation.
   */
  lemma NullHidesFailures(vs: seq<Violation>, c: Contract, k: TestCase, r: HttpResponse)
    requires !JudgingRaises(c, k, r) && IsVerdict(vs, c, k, r)
    ensures SatisfiesInFull(c, k, r) ==> vs == []
    ensures vs == [] ==>
      (!SatisfiesInFull(c, k, r) <==> Loads(r.text) == Some(JNull) && !BodySatisfies(c, k, r, JNull))
  {
    VerdictIsExact(vs, c, k, r);
  }

  /** What a body is, when it is looked at. */
  function BodyLookedAt(c: Contract, k: TestCase, r: HttpResponse): Option<Json> {
    if LooksAtBody(c, k, r) then Loads(r.text) else None
  }

  method JudgeStatus(k: TestCase, r: HttpResponse) returns (violations: seq<Violation>)
    ensures violations == StatusViolations(k, r)
  {
    violations := [];
    if r.statusCode != k.expectStatus {
      violations := violations + [Violation(ExpectationFailed, "response.status")];
    }
  }

  method ReadBody(c: Contract, k: TestCase, r: HttpResponse) returns (violations: seq<Violation>, body: Option<Json>)
    ensures violations == NotJsonViolations(c, k, r) && body == BodyLookedAt(c, k, r)
  {
    violations, body := [], None;
    if SchemaFor(c, k, r).Declared? || k.expectations != [] {
      body := Loads(r.text);
      if body.None? {
        violations := [Violation(BodyNotJson, "response.body")];
      }
    }
  }

  /** The errors of a body that was looked at and is not null. */
  function BodyErrors(schema: SchemaLookup, body: Option<Json>): set<SchemaError> {
    if schema.Declared? && body.Some? && body.value != JNull then Errors(schema.schema, body.value, []) else {}
  }

  method JudgeBody(schema: SchemaLookup, body: Option<Json>)
    returns (violations: seq<Violation>, ghost es: seq<SchemaError>)
    ensures Lists(es, BodyErrors(schema, body)) && violations == ToViolations(es)
  {
    violations, es := [], [];
    if schema.Declared? && body.Some? && body.value != JNull {
      violations, es := CheckBodyAgainstSchema(body.value, schema.schema);
    }
  }

  lemma LookedAtErrors(c: Contract, k: TestCase, r: HttpResponse)
    ensures BodyErrors(SchemaFor(c, k, r), BodyLookedAt(c, k, r)) == SchemaErrorsOf(c, k, r)
  {
  }

  /** The part of `run_case` after an answer came; None: it raises. */
  method Judge(c: Contract, k: TestCase, r: HttpResponse) returns (verdict: Option<seq<Violation>>)
    ensures verdict.None? <==> JudgingRaises(c, k, r)
    ensures verdict.Some? ==> IsVerdict(verdict.value, c, k, r)
  {
    var schema := SchemaFor(c, k, r);
    if schema.Unresolvable? {
      return None;
    }
    var status := JudgeStatus(k, r);
    var checked := CheckResponseInOrder(c, r);
    var notJson, body := ReadBody(c, k, r);
    var middle, es := JudgeBody(schema, body);
    LookedAtErrors(c, k, r);
    var last := [];
    if k.expectations != [] && body.Some? && body.value != JNull {
      var failures := CheckExpectations(body.value, k.expectations);
      if failures.None? {
        return None;
      }
      last := failures.value;
    }
    verdict := Some(status + checked + notJson + middle + last);
  }

  /** harness/runner.py, `CaseResult`. */
  datatype CaseResult = CaseResult(
    statusCode: Option<nat>, attempts: nat, violations: seq<Violation>, transportFailed: bool)
  {
    predicate Passed() { violations == [] && !transportFailed }
  }

  /** Why a run ended: with a result, or with an exception from the judging part. */
  datatype Run = Finished(result: CaseResult) | Raised

  /**
    `run_case`. The loop plays the network; the result passes exactly when an answer came and
    satisfies every check, or when the method may be retried and a negative `retries` left no attempt to make.
   */
  method RunCase<S>(wire: Wire<S>, c: Contract, k: TestCase) returns (run: Run)
    modifies wire
    ensures var played := Play(wire.service, old(wire.state), k.request, wire.fates, old(wire.sent), k.MaxAttempts());
      && wire.state == played.state && wire.sent == old(wire.sent) + played.attempts
      && (played.answer.None? ==>
            && run == Finished(CaseResult(None, played.attempts, [], played.attempts > 0))
            && (run.result.Passed() <==> k.IsIdempotent() && k.retries < 0))
      && (played.answer.Some? ==>
            var r := played.answer.value;
            && (run.Raised? <==> JudgingRaises(c, k, r))
            && (run.Finished? ==>
                  && run.result.statusCode == Some(r.statusCode) && run.result.attempts == played.attempts
                  && !run.result.transportFailed
                  && IsVerdict(run.result.violations, c, k, r)
                  && (run.result.Passed() <==> Satisfies(c, k, r))))
  {
    var attempts := 0;
    var response: Option<HttpResponse> := None;
    var transportFailed := false;
    var maxAttempts := k.MaxAttempts();
    ghost var played := Play(wire.service, wire.state, k.request, wire.fates, wire.sent, maxAttempts);
    while attempts < maxAttempts && response.None?
      invariant wire.sent == old(wire.sent) + attempts
      invariant transportFailed <==> attempts > 0 && response.None?
      invariant attempts > 0 ==> maxAttempts > 0
      invariant response.None? ==>
        var rest := Play(wire.service, wire.state, k.request, wire.fates, wire.sent, maxAttempts - attempts);
        played == rest.(attempts := rest.attempts + attempts)
      invariant response.Some? ==> played == Played(wire.state, response, attempts)
      decreases maxAttempts - attempts
    {
      attempts := attempts + 1;
      response := wire.Send(k.request);
      transportFailed := response.None?;
    }
    if response.None? {
      return Finished(CaseResult(None, attempts, [], transportFailed));
    }
    var verdict := Judge(c, k, response.value);
    if verdict.None? {
      return Raised;
    }
    VerdictIsExact(verdict.value, c, k, response.value);
    run := Finished(CaseResult(Some(response.value.statusCode), attempts, verdict.value, false));
  }
}
