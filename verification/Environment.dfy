/**
  Faults of the network as the harness reports them: the proxy in front of the pinned contract. A
  failure here is neither the service's nor the test's.
 */
module Environment {
  import opened Json
  import opened Text
  import opened Plan
  import opened Paths
  import opened Validator
  import opened Runner
  import opened Routing
  import opened Conformance
  import C = DeviceContract
  import H = Http
  import F = Faults
  import P = Proxy

  /** The status on the start line of a response: what stands between the first two blanks. */
  function StatusOf(startLine: string): Option<int> {
    var parts := Split(startLine, ' ');
    if |parts| >= 2 then ParseInt(parts[1]) else None
  }

  /** A message as the client hands it to the harness, its headers read in whatever way. */
  function Received(m: H.Message, headers: map<string, string>, r: Request): Option<HttpResponse> {
    match StatusOf(m.startLine)
    case None => None
    case Some(status) =>
      if status < 0 then None else Some(HttpResponse(status, headers, m.body, r.httpMethod, r.path))
  }

  lemma NoBlankInDigits(t: string)
    requires AllDigits(t)
    ensures ' ' !in t
  {
  }

  lemma ThreeWords(a: string, b: string, c: string)
    requires ' ' !in a && ' ' !in b
    ensures |Split(a + " " + b + " " + c, ' ')| >= 2 && Split(a + " " + b + " " + c, ' ')[1] == b
  {
    SplitAtSeparator(a, b + " " + c, ' ');
    SplitAtSeparator(b, c, ' ');
    assert a + " " + b + " " + c == a + [' '] + (b + [' '] + c);
  }

  /** The proxy's own answer reads as the status it was configured with. */
  lemma ErrorStatus(status: nat)
    ensures StatusOf(F.ErrorMessage(status).startLine) == Some(status)
  {
    NoBlankInDigits(Decimal(status));
    ThreeWords("HTTP/1.1", Decimal(status), "Service Unavailable");
    assert "HTTP/1.1 " + Decimal(status) + " Service Unavailable"
        == "HTTP/1.1" + " " + Decimal(status) + " " + "Service Unavailable";
    ParseDecimal(status);
  }

  /** With the operation found, the status is reported exactly when the operation does not declare it. */
  lemma UndeclaredByTable(c: Contract, response: HttpResponse, t: string, operation: Json)
    requires MatchPathTemplate(c.paths, response.requestPath) == Some(t)
    requires FindOperation(c, MethodOf(response), t) == Some(operation)
    ensures CheckResponse(c, response) == [Violation(UndeclaredStatus, "response.status")]
            <==> Decimal(response.statusCode) !in Responses(operation)
  {
    if Decimal(response.statusCode) in Responses(operation) {
      DeclaredKinds(c, response, t, operation);
      BodyKinds(Content(Responses(operation)[Decimal(response.statusCode)]), response);
    }
  }

  /** Every case that judges this response reports its status. */
  ghost predicate ReportedByAll(c: Contract, response: HttpResponse) {
    forall k: TestCase, vs: seq<Violation> | !JudgingRaises(c, k, response) && IsVerdict(vs, c, k, response) ::
      Violation(UndeclaredStatus, "response.status") in vs
  }

  lemma ReportedByEveryCase(c: Contract, response: HttpResponse)
    requires CheckResponse(c, response) == [Violation(UndeclaredStatus, "response.status")]
    ensures ReportedByAll(c, response)
  {
    var v := Violation(UndeclaredStatus, "response.status");
    forall k: TestCase, vs: seq<Violation> | !JudgingRaises(c, k, response) && IsVerdict(vs, c, k, response)
      ensures v in vs
    {
      InFirst(c, k, response, v);
      P.FirstIsInVerdict(v, vs, c, k, response);
    }
  }

  lemma InFirst(c: Contract, k: TestCase, r: HttpResponse, v: Violation)
    requires v in CheckResponse(c, r)
    ensures v in FirstViolations(c, k, r)
  {
  }

  /** This response is reported for its status by the contract check, and then by every case. */
  ghost predicate StatusReported(c: Contract, response: HttpResponse) {
    CheckResponse(c, response) == [Violation(UndeclaredStatus, "response.status")] && ReportedByAll(c, response)
  }

  /** Whatever answers a declared operation, its status is reported exactly when it is not declared. */
  lemma UndeclaredIff(c: Contract, r: Request, name: C.OpName, response: HttpResponse)
    requires Reads(c, r, name) && r.httpMethod != ""
    requires response.requestMethod == r.httpMethod && response.requestPath == r.path
    ensures StatusReported(c, response) <==> Decimal(response.statusCode) !in C.ResponseTable(name)
  {
    var responses := C.ResponseTable(name);
    OpResponses(responses);
    UndeclaredByTable(c, response, MatchPathTemplate(c.paths, r.path).value, C.Op(responses));
    if CheckResponse(c, response) == [Violation(UndeclaredStatus, "response.status")] {
      ReportedByEveryCase(c, response);
    }
  }

  /** What the client makes of the proxy's own answer. */
  lemma ErrorIsReceived(status: nat, headers: map<string, string>, r: Request)
    ensures Received(F.ErrorMessage(status), headers, r)
            == Some(HttpResponse(status, headers, F.ErrorMessage(status).body, r.httpMethod, r.path))
  {
    ErrorStatus(status);
  }

  lemma ErrorIsReportedIff(status: nat, headers: map<string, string>, r: Request)
    requires UpperCase(r.httpMethod) && !EndsWithNewline(r.path) && IsDeclared(C.Pinned(), r) && r.httpMethod != ""
    ensures NameFor(r).Some? && Received(F.ErrorMessage(status), headers, r).Some?
    ensures StatusReported(C.Pinned(), Received(F.ErrorMessage(status), headers, r).value)
            <==> Decimal(status) !in C.ResponseTable(NameFor(r).value)
  {
    PinnedReads(r);
    ErrorIsReceived(status, headers, r);
    UndeclaredIff(C.Pinned(), r, NameFor(r).value, Received(F.ErrorMessage(status), headers, r).value);
  }

  /**
    From the wire to the verdict: in every reachable state, the reply to a request that ERROR_CODE
    hit is received as the proxy's own answer. To a declared operation that is reported, by every
    case, as an undeclared status exactly when the operation does not declare the status.
   */
  lemma ErrorCodeIsReported(run: seq<P.State>, i: nat, k: nat, r: Request, headers: map<string, string>)
    requires P.IsRun(run) && i < |run| && k in run[i].replies && P.Refused(run[i], k)
    requires UpperCase(r.httpMethod) && !EndsWithNewline(r.path) && IsDeclared(C.Pinned(), r) && r.httpMethod != ""
    ensures NameFor(r).Some? && H.Read(run[i].replies[k], true).Got?
    ensures var response := Received(H.Read(run[i].replies[k], true).message, headers, r);
      && response.Some?
      && (StatusReported(C.Pinned(), response.value)
          <==> Decimal(run[i].config.errorStatus) !in C.ResponseTable(NameFor(r).value))
  {
    P.WhatTheClientReads(run, i, k);
    ErrorIsReportedIff(run[i].config.errorStatus, headers, r);
  }

  predicate NoServerError(responses: map<string, Json>) {
    forall status | status in responses :: status != "" && status[0] != '5'
  }

  lemma Together(a: map<string, Json>, b: map<string, Json>, c: map<string, Json>, d: map<string, Json>)
    requires NoServerError(a) && NoServerError(b) && NoServerError(c) && NoServerError(d)
    ensures NoServerError(a + b) && NoServerError(a + b + c) && NoServerError(a + b + c + d)
  {
  }

  lemma NoServerErrorDeclared(name: C.OpName)
    ensures NoServerError(C.ResponseTable(name))
  {
    var device, none := C.WithBody(C.Ref("Device")), C.NoContent();
    match name
    case AtCreate => Together(map["201" := device], C.BadRequest(), C.Conflict(), C.Unprocessable());
    case AtGet => Together(map["200" := device], C.NotFound(), C.Unprocessable(), map[]);
    case AtReplace => Together(map["200" := device], C.BadRequest(), C.NotFound(), C.Unprocessable());
    case AtDelete => Together(map["204" := none], C.NotFound(), C.Unprocessable(), map[]);
    case AtState => StateTable(device);
    case _ =>
  }

  lemma StateTable(device: Json)
    requires device == C.WithBody(C.Ref("Device"))
    ensures NoServerError(C.ResponseTable(C.AtState))
  {
    Together(map["200" := device], C.BadRequest(), C.NotFound(), C.Conflict());
    Together(map["200" := device] + C.BadRequest() + C.NotFound() + C.Conflict(), C.Unprocessable(), map[], map[]);
  }

  /** The statuses that the proxy is there to send are declared nowhere: 503, its default, and every other 5xx. */
  lemma ServerErrorsAreUndeclared(name: C.OpName, status: nat)
    requires 500 <= status < 600
    ensures Decimal(status) !in C.ResponseTable(name)
  {
    StatusDigits(status);
    assert status / 100 == 5;
    NoServerErrorDeclared(name);
  }
}
