/**
  The answer that the proxy writes itself (proxy/server.py, `_error_response`), as the harness judges
  it: a body of the shape that the contract gives its errors.
 */
module Injected {
  import opened Json
  import opened Text
  import opened JsonText
  import opened JsonPrint
  import opened Plan
  import opened Paths
  import opened Validator
  import opened Schema
  import opened Service
  import opened Routing
  import opened Conformance
  import opened Answers
  import C = DeviceContract
  import E = Environment
  import F = Faults

  // ----- the body as JSON -----

  /** No character that JSON escapes. */
  predicate NothingToEscape(cs: string) {
    forall i | 0 <= i < |cs| :: Short(cs[i]).None? && ' ' <= cs[i] <= '~'
  }

  lemma {:induction false} PrintsAsIs(st: Style, cs: string)
    requires NothingToEscape(cs)
    ensures PrintChars(st, cs) == cs
    decreases |cs|
  {
    if cs != "" {
      PrintsAsIs(st, cs[1..]);
      assert cs == [cs[0]] + cs[1..];
    }
  }

  lemma TextPrints(st: Style, cs: string)
    requires NothingToEscape(cs)
    ensures Dumps(st, JStr(cs)) == "\"" + cs + "\"" && PrintString(st, cs) == "\"" + cs + "\""
  {
    PrintsAsIs(st, cs);
  }

  /** Compact, the one key before every other. */
  ghost function KeyFirst(first: string): Style {
    Style("", false, (j: Json, keys: set<string>) => first)
  }

  /** A member without gaps. */
  function Member(k: string, v: string): string { "\"" + k + "\":" + v }

  lemma MemberText(q: string, k: string, v: string, rest: string)
    requires q == "\"" + k + "\""
    ensures q + ([':'] + ("" + (v + rest))) == Member(k, v) + rest
  {
    assert q + ([':'] + ("" + (v + rest))) == q + [':'] + v + rest;
  }

  lemma LastMember(st: Style, j: Json, l: string)
    requires st.gap == "" && NothingToEscape(l) && j.JObj? && l in j.m
    ensures PrintMembers(st, j, {l}) == Member(l, Dumps(st, j.m[l])) + "}"
  {
    assert {l} - {l} == {} && Pick(st, j, {l}) == l;
    TextPrints(st, l);
    MemberText(PrintString(st, l), l, Dumps(st, j.m[l]), "}");
  }

  lemma NextMember(st: Style, j: Json, k: string, others: set<string>)
    requires st.gap == "" && NothingToEscape(k) && j.JObj? && k !in others && others != {}
    requires others + {k} <= j.m.Keys && st.order(j, others + {k}) == k
    ensures PrintMembers(st, j, others + {k})
            == Member(k, Dumps(st, j.m[k])) + ("," + PrintMembers(st, j, others))
  {
    assert others + {k} - {k} == others;
    TextPrints(st, k);
    var rest := PrintMore(st, j, others);
    assert rest == [','] + ("" + PrintMembers(st, j, others));
    assert "" + PrintMembers(st, j, others) == PrintMembers(st, j, others);
    MemberText(PrintString(st, k), k, Dumps(st, j.m[k]), rest);
  }

  lemma OnePrints(st: Style, k: string, v: Json)
    requires st.gap == "" && NothingToEscape(k)
    ensures Dumps(st, JObj(map[k := v])) == "{" + (Member(k, Dumps(st, v)) + "}")
  {
    var j := JObj(map[k := v]);
    assert j.m.Keys == {k};
    LastMember(st, j, k);
  }

  lemma TwoPrint(st: Style, k: string, v: Json, l: string, w: Json)
    requires st.gap == "" && NothingToEscape(k) && NothingToEscape(l) && k != l
    requires forall j: Json, keys: set<string> :: st.order(j, keys) == k
    ensures Dumps(st, JObj(map[k := v, l := w]))
            == "{" + (Member(k, Dumps(st, v)) + ("," + (Member(l, Dumps(st, w)) + "}")))
  {
    var j := JObj(map[k := v, l := w]);
    assert j.m.Keys == {l} + {k};
    LastMember(st, j, l);
    NextMember(st, j, k, {l});
  }

  lemma ErrorPrints(st: Style, c: string, m: string, e: string, code: string, message: string)
    requires st == KeyFirst(c) && NothingToEscape(code) && NothingToEscape(message) && c != m
    requires NothingToEscape(c) && NothingToEscape(m) && NothingToEscape(e)
    ensures Dumps(st, JObj(map[e := JObj(map[c := JStr(code), m := JStr(message)])]))
            == "{" + (Member(e, Detail(c, m, code, message)) + "}")
  {
    TextPrints(st, code);
    TextPrints(st, message);
    TwoPrint(st, c, JStr(code), m, JStr(message));
    OnePrints(st, e, JObj(map[c := JStr(code), m := JStr(message)]));
  }

  function Detail(c: string, m: string, code: string, message: string): string {
    "{" + (Member(c, "\"" + code + "\"") + ("," + (Member(m, "\"" + message + "\"") + "}")))
  }

  lemma DetailText(c: string, m: string, code: string, message: string, first: string, second: string)
    requires first == "{\"" + c + "\":\"" && second == "\",\"" + m + "\":\""
    ensures Detail(c, m, code, message) == first + code + (second + message + "\"}")
  {
    assert first + code + "\"" == "{" + Member(c, "\"" + code + "\"");
    assert "\"" + (second[1..] + message + "\"}") == second + message + "\"}";
    assert second[1..] == ",\"" + m + "\":\"";
    assert second[1..] + message + "\"}" == "," + (Member(m, "\"" + message + "\"") + "}");
  }

  lemma BodyText(e: string, c: string, m: string, code: string, message: string, first: string, second: string)
    requires first == "{\"" + e + "\":{\"" + c + "\":\"" && second == "\",\"" + m + "\":\""
    ensures first + code + second + message + "\"}}" == "{" + (Member(e, Detail(c, m, code, message)) + "}")
  {
    var inner := "{\"" + c + "\":\"";
    DetailText(c, m, code, message, inner, second);
    assert first == "{" + ("\"" + e + "\":") + inner;
    assert second + message + "\"}" + "}" == second + message + "\"}}";
  }

  lemma BodyPrints(e: string, c: string, m: string, code: string, message: string)
    requires e == "error" && c == "code" && m == "message"
    requires code == "proxy_injected" && message == "injected fault: error_code"
    ensures F.ERROR_BODY == "{" + (Member(e, Detail(c, m, code, message)) + "}")
  {
    var first, second := "{\"error\":{\"code\":\"", "\",\"message\":\"";
    BodyText(e, c, m, code, message, first, second);
  }

  lemma NothingEscaped(e: string, c: string, m: string, code: string, message: string)
    requires e == "error" && c == "code" && m == "message"
    requires code == "proxy_injected" && message == "injected fault: error_code"
    ensures NothingToEscape(e) && NothingToEscape(c) && NothingToEscape(m) && c != m
    ensures NothingToEscape(code) && NothingToEscape(message)
  {
    assert |c| != |m|;
  }

  /** The body is JSON: the error that it names. */
  lemma ErrorBodyReads()
    ensures Loads(F.ERROR_BODY) == Some(Refusal("proxy_injected", "injected fault: error_code"))
  {
    BodyReads("error", "code", "message", "proxy_injected", "injected fault: error_code");
  }

  lemma BodyReads(e: string, c: string, m: string, code: string, message: string)
    requires e == "error" && c == "code" && m == "message"
    requires code == "proxy_injected" && message == "injected fault: error_code"
    ensures Loads(F.ERROR_BODY) == Some(JObj(map[e := JObj(map[c := JStr(code), m := JStr(message)])]))
  {
    NothingEscaped(e, c, m, code, message);
    ReadsAsError(e, c, m, code, message);
    BodyPrints(e, c, m, code, message);
  }

  lemma ReadsAsError(e: string, c: string, m: string, code: string, message: string)
    requires NothingToEscape(code) && NothingToEscape(message) && c != m
    requires NothingToEscape(c) && NothingToEscape(m) && NothingToEscape(e)
    ensures Loads("{" + (Member(e, Detail(c, m, code, message)) + "}"))
            == Some(JObj(map[e := JObj(map[c := JStr(code), m := JStr(message)])]))
  {
    var st := KeyFirst(c);
    ErrorPrints(st, c, m, e, code, message);
    PrintedReadsBack(st, JObj(map[e := JObj(map[c := JStr(code), m := JStr(message)])]));
  }

  // ----- the verdict -----

  /** Every status of 400 and above is declared with the body of an error. */
  predicate ErrorsHaveBodies(responses: map<string, Json>) {
    forall status | status in responses :: (status != "" && status[0] == '2') || responses[status] == C.ErrorBody()
  }

  lemma Together(a: map<string, Json>, b: map<string, Json>, c: map<string, Json>, d: map<string, Json>)
    requires ErrorsHaveBodies(a) && ErrorsHaveBodies(b) && ErrorsHaveBodies(c) && ErrorsHaveBodies(d)
    ensures ErrorsHaveBodies(a + b) && ErrorsHaveBodies(a + b + c) && ErrorsHaveBodies(a + b + c + d)
  {
  }

  lemma OneStatus(status: string, declared: Json)
    requires (status != "" && status[0] == '2') || declared == C.ErrorBody()
    ensures ErrorsHaveBodies(map[status := declared])
  {
  }

  lemma ErrorTables()
    ensures ErrorsHaveBodies(C.BadRequest()) && ErrorsHaveBodies(C.NotFound())
    ensures ErrorsHaveBodies(C.Conflict()) && ErrorsHaveBodies(C.Unprocessable())
  {
    OneStatus("400", C.ErrorBody());
    OneStatus("404", C.ErrorBody());
    OneStatus("409", C.ErrorBody());
    OneStatus("422", C.ErrorBody());
  }

  lemma TablesHaveBodies(name: C.OpName)
    ensures ErrorsHaveBodies(C.ResponseTable(name))
  {
    var device := C.WithBody(C.Ref("Device"));
    ErrorTables();
    match name
    case AtCreate => CreateTable(device);
    case AtGet => GetTable(device);
    case AtReplace => ReplaceTable(device);
    case AtDelete => DeleteTable(C.NoContent());
    case AtState => StateTable(device);
    case _ =>
  }

  lemma CreateTable(device: Json)
    requires device == C.WithBody(C.Ref("Device"))
    ensures ErrorsHaveBodies(C.ResponseTable(C.AtCreate))
  {
    ErrorTables();
    OneStatus("201", device);
    Together(map["201" := device], C.BadRequest(), C.Conflict(), C.Unprocessable());
  }

  lemma GetTable(device: Json)
    requires device == C.WithBody(C.Ref("Device"))
    ensures ErrorsHaveBodies(C.ResponseTable(C.AtGet))
  {
    ErrorTables();
    OneStatus("200", device);
    Together(map["200" := device], C.NotFound(), C.Unprocessable(), map[]);
  }

  lemma ReplaceTable(device: Json)
    requires device == C.WithBody(C.Ref("Device"))
    ensures ErrorsHaveBodies(C.ResponseTable(C.AtReplace))
  {
    ErrorTables();
    OneStatus("200", device);
    Together(map["200" := device], C.BadRequest(), C.NotFound(), C.Unprocessable());
  }

  lemma DeleteTable(none: Json)
    requires none == C.NoContent()
    ensures ErrorsHaveBodies(C.ResponseTable(C.AtDelete))
  {
    ErrorTables();
    OneStatus("204", none);
    Together(map["204" := none], C.NotFound(), C.Unprocessable(), map[]);
  }

  lemma StateTable(device: Json)
    requires device == C.WithBody(C.Ref("Device"))
    ensures ErrorsHaveBodies(C.ResponseTable(C.AtState))
  {
    ErrorTables();
    OneStatus("200", device);
    var first := map["200" := device] + C.BadRequest() + C.NotFound() + C.Conflict();
    Together(map["200" := device], C.BadRequest(), C.NotFound(), C.Conflict());
    Together(first, C.Unprocessable(), map[], map[]);
  }

  lemma ErrorIsFine(code: string, message: string)
    ensures Errors(C.ErrorSchema(C.DetailSchema()), Refusal(code, message), []) == {}
  {
    DetailFine(code, message, [Key("error")]);
    assert [] + [Key("error")] == [Key("error")];
    ErrorOfFine(C.DetailSchema(), Refusal(code, message).m["error"], []);
  }

  /** What the proxy answers, as if the service had. */
  function ProxyAnswer(status: nat): Answer {
    Answer(status, Some(Refusal("proxy_injected", "injected fault: error_code")), None)
  }

  lemma ProxyAnswerKept(doc: Json, name: C.OpName, status: nat)
    requires C.BodiesResolve(doc) && Declares(C.ResponseTable(name), Decimal(status), C.ErrorBody())
    ensures KeptAs(doc, name, ProxyAnswer(status))
  {
    ErrorIsFine("proxy_injected", "injected fault: error_code");
    ErrorResolves(doc);
    BodyIsKept(doc, C.ResponseTable(name), ProxyAnswer(status), C.Ref("ErrorResponse"),
      C.ErrorSchema(C.DetailSchema()));
  }

  /** The proxy's answer to a request, as the client receives it. */
  function Injection(status: nat, r: Request): HttpResponse {
    HttpResponse(status, map["content-type" := "application/json"], F.ERROR_BODY, r.httpMethod, r.path)
  }

  lemma DeclaredPasses(r: Request, name: C.OpName, status: nat)
    requires Reads(C.Pinned(), r, name) && r.httpMethod != ""
    requires Declares(C.ResponseTable(name), Decimal(status), C.ErrorBody())
    ensures Conforms(C.Pinned(), Injection(status, r))
  {
    var dumps: Json -> string := (j: Json) => F.ERROR_BODY;
    ErrorBodyReads();
    ProxyAnswerKept(C.Pinned().doc, name, status);
    InjectionIs(dumps, status, r);
    AnswerConforms(C.Pinned(), dumps, r, name, ProxyAnswer(status), Injection(status, r));
  }

  lemma InjectionIs(dumps: Json -> string, status: nat, r: Request)
    requires forall j :: dumps(j) == F.ERROR_BODY
    ensures ToResponse(dumps, ProxyAnswer(status), r) == Injection(status, r)
  {
  }

  /**
    An injected error status goes unseen exactly when the operation declares it: the body is what the
    contract asks of its errors, so nothing but the status can tell the proxy's answer from the
    service's.
   */
  lemma InjectionPassesIff(r: Request, status: nat)
    requires UpperCase(r.httpMethod) && !EndsWithNewline(r.path) && IsDeclared(C.Pinned(), r) && r.httpMethod != ""
    requires 400 <= status < 600
    ensures NameFor(r).Some?
    ensures E.Received(F.ErrorMessage(status), map["content-type" := "application/json"], r)
            == Some(Injection(status, r))
    ensures Conforms(C.Pinned(), Injection(status, r)) <==> Decimal(status) in C.ResponseTable(NameFor(r).value)
  {
    var headers := map["content-type" := "application/json"];
    PinnedReads(r);
    E.ErrorIsReceived(status, headers, r);
    E.ErrorIsReportedIff(status, headers, r);
    var responses := C.ResponseTable(NameFor(r).value);
    if Decimal(status) in responses {
      TablesHaveBodies(NameFor(r).value);
      StatusDigits(status);
      assert Decimal(status)[0] != '2';
      DeclaredPasses(r, NameFor(r).value, status);
    }
  }
}
