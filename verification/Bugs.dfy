/** Seeded bugs: api/bugs.py. What they leave alone, and how the harness sees them. */
module Bugs {
  import opened Json
  import opened Text
  import opened JsonText
  import opened JsonPrint
  import opened Plan
  import opened Paths
  import opened Schema
  import opened Validator
  import opened Store
  import opened Service
  import C = DeviceContract
  import opened Routing
  import opened Conformance
  import opened Expectations
  import opened Runner

  datatype BugMode = NoBug | MissingField | WrongType | BadEnum | WrongStatus | Undeclared500 | OffByOnePage

  /** `^/devices/\d+$`, for ASCII digits and a path without a newline. */
  predicate IsDeviceDetail(path: string) {
    var ps := Split(path, '/');
    HasThird(ps, "", "devices") && AllDigits(ps[2])
  }

  predicate AimsAtDevice(httpMethod: string, path: string, status: nat) {
    httpMethod == "GET" && IsDeviceDetail(path) && status == 200
  }

  predicate AimsAtPage(httpMethod: string, path: string, status: nat) {
    httpMethod == "GET" && path == C.DEVICES && status == 200
  }

  function WithoutName(payload: Json): Json {
    if payload.JObj? then JObj(payload.m - {"name"}) else payload
  }

  function WithTextId(payload: Json): Json {
    if payload.JObj? && "id" in payload.m && payload.m["id"].JInt?
    then JObj(payload.m["id" := JStr(IntText(payload.m["id"].n))])
    else payload
  }

  function Exploded(payload: Json): Json {
    if payload.JObj? then JObj(payload.m["status" := JStr("exploded")]) else payload
  }

  function WithLastTwice(payload: Json): Json {
    if payload.JObj? && "items" in payload.m && payload.m["items"].JArr? && payload.m["items"].items != []
    then
      var items := payload.m["items"].items;
      JObj(payload.m["items" := JArr(items + [items[|items| - 1]])])
    else payload
  }

  /** `_corrupt`, for the payloads that the service makes. */
  function Corrupted(mode: BugMode, httpMethod: string, path: string, payload: Json, status: nat): (Json, nat) {
    match mode
    case MissingField => (if AimsAtDevice(httpMethod, path, status) then WithoutName(payload) else payload, status)
    case WrongType => (if AimsAtDevice(httpMethod, path, status) then WithTextId(payload) else payload, status)
    case BadEnum => (if AimsAtDevice(httpMethod, path, status) then Exploded(payload) else payload, status)
    case WrongStatus => (payload, if httpMethod == "POST" && path == C.DEVICES && status == 201 then 200 else status)
    case OffByOnePage => (if AimsAtPage(httpMethod, path, status) then WithLastTwice(payload) else payload, status)
    case _ => (payload, status)
  }

  function CorruptAnswer(mode: BugMode, r: Request, a: Answer): Answer {
    match a.body
    case None => a
    case Some(payload) =>
      var (body, status) := Corrupted(mode, r.httpMethod, r.path, payload, a.status);
      Answer(status, Some(body), a.location)
  }

  /** `dispatch`: the application with the mode's bug in front of it. */
  function Dispatch(mode: BugMode, store: Store, r: Request): (Store, Answer) {
    if mode == NoBug then Serve(store, r)
    else if mode == Undeclared500 && r.httpMethod == "GET" && IsDeviceDetail(r.path) then
      (store, Service.Problem(500, "seeded fault: undeclared_500"))
    else (Serve(store, r).0, CorruptAnswer(mode, r, Serve(store, r).1))
  }

  /** The mode does something to answers like this one. */
  predicate Aims(mode: BugMode, httpMethod: string, path: string, status: nat) {
    match mode
    case WrongStatus => httpMethod == "POST" && path == C.DEVICES && status == 201
    case OffByOnePage => AimsAtPage(httpMethod, path, status)
    case NoBug => false
    case Undeclared500 => false
    case _ => AimsAtDevice(httpMethod, path, status)
  }

  /** The one key of a payload that a mode edits. */
  function EditedKey(mode: BugMode): string {
    match mode
    case MissingField => "name"
    case WrongType => "id"
    case BadEnum => "status"
    case _ => "items"
  }

  ghost predicate SameBut(before: map<string, Json>, after: map<string, Json>, key: string) {
    forall k | k != key :: (k in before <==> k in after) && (k in before ==> after[k] == before[k])
  }

  /** What is wrong with a payload afterwards. */
  predicate Defect(mode: BugMode, before: map<string, Json>, after: map<string, Json>) {
    match mode
    case MissingField => "name" !in after
    case WrongType =>
      "id" in before && before["id"].JInt? ==>
        "id" in after && after["id"].JStr? && ParseInt(after["id"].s) == Some(before["id"].n)
    case BadEnum => "status" in after && StatusField(after["status"]) == None
    case OffByOnePage =>
      "items" in before && before["items"].JArr? && before["items"].items != [] ==>
        && "items" in after && after["items"].JArr?
        && var xs, ys := before["items"].items, after["items"].items;
           |ys| == |xs| + 1 && ys[..|xs|] == xs && ys[|xs|] == xs[|xs| - 1]
    case _ => after == before
  }

  /** A payload that `_corrupt` edits in place. */
  class Payload {
    var value: Json

    constructor (value: Json)
      ensures this.value == value
    {
      this.value := value;
    }

    method Corrupt(mode: BugMode, httpMethod: string, path: string, status: nat) returns (newStatus: nat)
      modifies this
      ensures (value, newStatus) == Corrupted(mode, httpMethod, path, old(value), status)
      ensures newStatus != status ==> newStatus == 200 && Aims(mode, httpMethod, path, status) && mode == WrongStatus
      ensures value != old(value) ==> Aims(mode, httpMethod, path, status) && old(value).JObj? && value.JObj?
      ensures value != old(value) ==> SameBut(old(value).m, value.m, EditedKey(mode))
      ensures Aims(mode, httpMethod, path, status) && old(value).JObj? ==>
        value.JObj? && Defect(mode, old(value).m, value.m)
    {
      newStatus := status;
      if mode == MissingField {
        if AimsAtDevice(httpMethod, path, status) && value.JObj? {
          value := JObj(value.m - {"name"});
        }
      } else if mode == WrongType {
        if AimsAtDevice(httpMethod, path, status) && value.JObj? && "id" in value.m && value.m["id"].JInt? {
          ParseIntText(value.m["id"].n);
          value := JObj(value.m["id" := JStr(IntText(value.m["id"].n))]);
        }
      } else if mode == BadEnum {
        if AimsAtDevice(httpMethod, path, status) && value.JObj? {
          value := JObj(value.m["status" := JStr("exploded")]);
        }
      } else if mode == WrongStatus {
        if httpMethod == "POST" && path == C.DEVICES && status == 201 { newStatus := 200; }
      } else if mode == OffByOnePage {
        if AimsAtPage(httpMethod, path, status) {
          DoubleLastItem();
        }
      }
    }

    /** `payload["items"] = items + [items[-1]]`, if there are items. */
    method DoubleLastItem()
      modifies this
      ensures value == WithLastTwice(old(value))
      ensures value != old(value) ==> old(value).JObj? && value.JObj? && SameBut(old(value).m, value.m, "items")
      ensures old(value).JObj? ==> value.JObj? && Defect(OffByOnePage, old(value).m, value.m)
    {
      if value.JObj? && "items" in value.m && value.m["items"].JArr? && value.m["items"].items != [] {
        var items := value.m["items"].items;
        value := JObj(value.m["items" := JArr(items + [items[|items| - 1]])]);
      }
    }
  }

  /** The middleware, its mode a global of the module. */
  class Middleware {
    const api: Api
    var mode: BugMode

    constructor (api: Api)
      ensures this.api == api && mode == NoBug
    {
      this.api, mode := api, NoBug;
    }

    method SetMode(mode: BugMode)
      modifies this`mode
      ensures this.mode == mode
    {
      this.mode := mode;
    }

    method Call(r: Request) returns (answer: Answer)
      modifies api.registry
      ensures (api.registry.Model(), answer) == Dispatch(mode, old(api.registry.Model()), r)
    {
      if mode == NoBug {
        answer := api.Call(r);
        return;
      }
      if mode == Undeclared500 && r.httpMethod == "GET" && IsDeviceDetail(r.path) {
        return Service.Problem(500, "seeded fault: undeclared_500");
      }
      answer := api.Call(r);
      if answer.body.Some? {
        var payload := new Payload(answer.body.value);
        var status := payload.Corrupt(mode, r.httpMethod, r.path, answer.status);
        answer := Answer(status, Some(payload.value), answer.location);
      }
    }

    /** A run of requests in which the mode is set anew before each: the store ends as if healthy. */
    method Replay(modes: nat -> BugMode, requests: seq<Request>) returns (answers: seq<Answer>)
      modifies this, api.registry
      ensures api.registry.Model() == StoreAfter(old(api.registry.Model()), requests)
      ensures answers == AnswersUnder(modes, old(api.registry.Model()), requests)
    {
      answers := [];
      for n := 0 to |requests|
        invariant api.registry.Model() == StoreAfter(old(api.registry.Model()), requests[..n])
        invariant answers == AnswersUnder(modes, old(api.registry.Model()), requests[..n])
      {
        SetMode(modes(n));
        var answer := Call(requests[n]);
        answers := answers + [answer];
        NextAnswer(modes, old(api.registry.Model()), requests, n);
      }
      assert requests[..|requests|] == requests;
    }
  }

  /** The answers along a run, the store being what a healthy service would have. */
  function AnswersUnder(modes: nat -> BugMode, store: Store, requests: seq<Request>): seq<Answer> {
    if requests == [] then []
    else
      var n := |requests| - 1;
      AnswersUnder(modes, store, requests[..n]) + [Dispatch(modes(n), StoreAfter(store, requests[..n]), requests[n]).1]
  }

  lemma NextAnswer(modes: nat -> BugMode, store: Store, requests: seq<Request>, n: nat)
    requires n < |requests|
    ensures var (next, answer) := Dispatch(modes(n), StoreAfter(store, requests[..n]), requests[n]);
      && next == StoreAfter(store, requests[..n + 1])
      && AnswersUnder(modes, store, requests[..n + 1]) == AnswersUnder(modes, store, requests[..n]) + [answer]
  {
    StoreUnaffected(modes(n), StoreAfter(store, requests[..n]), requests[n]);
    assert requests[..n + 1][..n] == requests[..n];
  }

  // ----- what the bugs leave alone -----

  lemma ReadsChangeNothing(store: Store, r: Request)
    requires r.httpMethod == "GET"
    ensures Serve(store, r).0 == store
  {
  }

  lemma StoreUnaffected(mode: BugMode, store: Store, r: Request)
    ensures Dispatch(mode, store, r).0 == Serve(store, r).0
  {
    if r.httpMethod == "GET" { ReadsChangeNothing(store, r); }
  }

  /** The store after a run in which the mode may change before every request. */
  function StoreUnder(modes: nat -> BugMode, store: Store, requests: seq<Request>): Store {
    if requests == [] then store
    else
      var n := |requests| - 1;
      Dispatch(modes(n), StoreUnder(modes, store, requests[..n]), requests[n]).0
  }

  /** Whatever bugs are switched on and off along the way, the store ends as on a healthy service. */
  lemma {:induction false} BugsNeverTouchTheStore(modes: nat -> BugMode, store: Store, requests: seq<Request>)
    ensures StoreUnder(modes, store, requests) == StoreAfter(store, requests)
  {
    if requests != [] {
      var n := |requests| - 1;
      BugsNeverTouchTheStore(modes, store, requests[..n]);
      StoreUnaffected(modes(n), StoreAfter(store, requests[..n]), requests[n]);
    }
  }

  /** The mode aims at this request, given the healthy answer. */
  predicate OnTarget(mode: BugMode, r: Request, healthy: Answer) {
    match mode
    case NoBug => false
    case WrongStatus => r.httpMethod == "POST" && r.path == C.DEVICES && healthy.status == 201
    case Undeclared500 => r.httpMethod == "GET" && IsDeviceDetail(r.path)
    case OffByOnePage =>
      && r.httpMethod == "GET" && r.path == C.DEVICES && healthy.status == 200
      && healthy.body.Some? && "items" in healthy.body.value.Members()
      && healthy.body.value.m["items"].JArr? && healthy.body.value.m["items"].items != []
    case _ => r.httpMethod == "GET" && IsDeviceDetail(r.path) && healthy.status == 200
  }

  /** Off target the service answers as if healthy. */
  lemma OffTargetIsHealthy(mode: BugMode, store: Store, r: Request)
    requires !OnTarget(mode, r, Serve(store, r).1)
    ensures Dispatch(mode, store, r) == Serve(store, r)
  {
    StoreUnaffected(mode, store, r);
    if !(mode == Undeclared500 && r.httpMethod == "GET" && IsDeviceDetail(r.path)) {
      UncorruptedIsSame(mode, r, Serve(store, r).1);
    }
  }

  lemma UncorruptedIsSame(mode: BugMode, r: Request, a: Answer)
    requires !OnTarget(mode, r, a)
    ensures CorruptAnswer(mode, r, a) == a
  {
  }

  // ----- exactly which errors a corrupted device has -----

  function ErrorsAt(k: string, s: Json, m: map<string, Json>, path: Path): set<SchemaError> {
    if k in m then Errors(s, m[k], path + [Key(k)]) else {}
  }

  lemma OneMoreMember(properties: map<string, Json>, k: string, s: Json, m: map<string, Json>, path: Path)
    requires k !in properties
    ensures MemberErrors(properties[k := s], m, path) == MemberErrors(properties, m, path) + ErrorsAt(k, s, m, path)
  {
    var more := properties[k := s];
    forall e | e in MemberErrors(more, m, path)
      ensures e in MemberErrors(properties, m, path) + ErrorsAt(k, s, m, path)
    {
      var j :| j in more && j in m && e in Errors(more[j], m[j], path + [Key(j)]);
      if j != k { assert j in properties && properties[j] == more[j]; }
    }
    forall e | e in MemberErrors(properties, m, path) ensures e in MemberErrors(more, m, path) {
      var j :| j in properties && j in m && e in Errors(properties[j], m[j], path + [Key(j)]);
      assert j in more && more[j] == properties[j];
    }
    forall e | e in ErrorsAt(k, s, m, path) ensures e in MemberErrors(more, m, path) {
      assert k in more && more[k] == s;
    }
  }

  lemma ThreeMembers(a: string, b: string, c: string, sa: Json, sb: Json, sc: Json, m: map<string, Json>, path: Path)
    requires a != b && a != c && b != c
    ensures MemberErrors(map[a := sa, b := sb, c := sc], m, path)
            == ErrorsAt(a, sa, m, path) + ErrorsAt(b, sb, m, path) + ErrorsAt(c, sc, m, path)
  {
    OneMoreMember(map[], a, sa, m, path);
    OneMoreMember(map[a := sa], b, sb, m, path);
    OneMoreMember(map[a := sa, b := sb], c, sc, m, path);
  }

  function Gone(name: string, m: map<string, Json>, path: Path): set<SchemaError> {
    if name in m then {} else {SchemaError(path, "required", name)}
  }

  lemma ThreeNames(a: string, b: string, c: string, m: map<string, Json>, path: Path)
    ensures MissingErrors([a, b, c], m, path) == Gone(a, m, path) + Gone(b, m, path) + Gone(c, m, path)
  {
    var names := [a, b, c];
    assert names[0] == a && names[1] == b && names[2] == c;
    forall e
      ensures e in MissingErrors(names, m, path) <==> e in Gone(a, m, path) + Gone(b, m, path) + Gone(c, m, path)
    {
      if e in Gone(a, m, path) { assert names[0] !in m; }
      if e in Gone(b, m, path) { assert names[1] !in m; }
      if e in Gone(c, m, path) { assert names[2] !in m; }
    }
  }

  /** The errors of any object read as a device, name by name and member by member. */
  lemma DeviceErrors(m: map<string, Json>, path: Path)
    ensures Errors(C.DeviceOut(), JObj(m), path) ==
      Gone("id", m, path) + Gone("name", m, path) + Gone("status", m, path)
      + (ErrorsAt("id", C.Typed("integer"), m, path) + ErrorsAt("name", C.NameSchema(), m, path)
         + ErrorsAt("status", C.StatusOut(), m, path))
  {
    ThreeNames("id", "name", "status", m, path);
    ThreeMembers("id", "name", "status", C.Typed("integer"), C.NameSchema(), C.StatusOut(), m, path);
    ObjectErrors(["id", "name", "status"],
      map["id" := C.Typed("integer"), "name" := C.NameSchema(), "status" := C.StatusOut()], m, path);
  }

  lemma IntegerId(n: int)
    ensures Errors(C.Typed("integer"), JInt(n), [] + [Key("id")]) == {}
  {
    TypedErrors("integer", JInt(n), [] + [Key("id")]);
  }

  lemma TextId(text: string)
    ensures Errors(C.Typed("integer"), JStr(text), [] + [Key("id")]) == {SchemaError([Key("id")], "type", "")}
  {
    TypedErrors("integer", JStr(text), [] + [Key("id")]);
    assert [] + [Key("id")] == [Key("id")];
  }

  lemma GoodName(name: string)
    requires 1 <= |name| <= 64
    ensures Errors(C.NameSchema(), JStr(name), [] + [Key("name")]) == {}
  {
    NameErrors(name, [] + [Key("name")]);
  }

  /** A map holds exactly these values where a device has its own. */
  predicate Shows(m: map<string, Json>, id: Json, name: Option<Json>, status: Json) {
    && "id" in m && m["id"] == id
    && ("name" in m <==> name.Some?) && (name.Some? ==> m["name"] == name.value)
    && "status" in m && m["status"] == status
  }

  lemma BugsShow(d: Device, id: Json, status: Json)
    ensures var m := DeviceJson(d).m;
      && Shows(m - {"name"}, JInt(d.id), None, JStr(StatusText(d.status)))
      && Shows(m["id" := id], id, Some(JStr(d.name)), JStr(StatusText(d.status)))
      && Shows(m["status" := status], JInt(d.id), Some(JStr(d.name)), status)
  {
  }

  /** The errors of an object whose name fits or is missing. */
  lemma ShownErrors(m: map<string, Json>, id: Json, name: Option<Json>, status: Json, ids: set<SchemaError>,
      states: set<SchemaError>)
    requires Shows(m, id, name, status)
    requires name.Some? ==> Errors(C.NameSchema(), name.value, [] + [Key("name")]) == {}
    requires Errors(C.Typed("integer"), id, [] + [Key("id")]) == ids
    requires Errors(C.StatusOut(), status, [] + [Key("status")]) == states
    ensures DeviceHas(m, (if name.None? then {SchemaError([], "required", "name")} else {}) + ids + states)
  {
    DeviceErrors(m, []);
  }

  predicate DeviceHas(m: map<string, Json>, es: set<SchemaError>) { Errors(C.DeviceOut(), JObj(m), []) == es }

  lemma Alone(e: SchemaError)
    ensures {e} + {} + {} == {e} && {} + {e} + {} == {e} && {} + {} + {e} == {e}
  {
  }

  /** A device with its name taken out lacks one required field. */
  lemma NamelessErrors(m: map<string, Json>, d: Device)
    requires Shows(m, JInt(d.id), None, JStr(StatusText(d.status)))
    ensures DeviceHas(m, {SchemaError([], "required", "name")})
  {
    IntegerId(d.id);
    StatusFine(d.status, [] + [Key("status")]);
    ShownErrors(m, JInt(d.id), None, JStr(StatusText(d.status)), {}, {});
    Alone(SchemaError([], "required", "name"));
  }

  /** A device with a text for an id has one value of the wrong type. */
  lemma TextIdErrors(m: map<string, Json>, d: Device, id: string)
    requires 1 <= |d.name| <= 64 && Shows(m, JStr(id), Some(JStr(d.name)), JStr(StatusText(d.status)))
    ensures DeviceHas(m, {SchemaError([Key("id")], "type", "")})
  {
    TextId(id);
    GoodName(d.name);
    StatusFine(d.status, [] + [Key("status")]);
    ShownErrors(m, JStr(id), Some(JStr(d.name)), JStr(StatusText(d.status)), {SchemaError([Key("id")], "type", "")},
      {});
    Alone(SchemaError([Key("id")], "type", ""));
  }

  lemma ExplodedIsUnlisted()
    ensures !EnumAllows(StatusEnum(), JStr("exploded"))
  {
    var names := StatusEnum().items;
    assert |names| == 3 && names[0] == JStr("online") && names[1] == JStr("offline") && names[2] == JStr("degraded");
    assert "degraded"[0] != "exploded"[0];
  }

  lemma ExplodedStatusErrors()
    ensures Errors(C.StatusOut(), JStr("exploded"), [] + [Key("status")]) == {SchemaError([Key("status")], "enum", "")}
  {
    ExplodedIsUnlisted();
    StatusErrors(JStr("exploded"), [] + [Key("status")]);
    StatusLocals(JStr("exploded"), [] + [Key("status")]);
    assert [] + [Key("status")] == [Key("status")];
  }

  /** A device in an unlisted state has one value outside its enumeration. */
  lemma ExplodedErrors(m: map<string, Json>, d: Device)
    requires 1 <= |d.name| <= 64 && Shows(m, JInt(d.id), Some(JStr(d.name)), JStr("exploded"))
    ensures DeviceHas(m, {SchemaError([Key("status")], "enum", "")})
  {
    IntegerId(d.id);
    GoodName(d.name);
    ExplodedStatusErrors();
    ShownErrors(m, JInt(d.id), Some(JStr(d.name)), JStr("exploded"), {}, {SchemaError([Key("status")], "enum", "")});
    Alone(SchemaError([Key("status")], "enum", ""));
  }

  // ----- what the harness reports -----

  /** What the contract checks and the schema check report: nothing but this one violation. */
  ghost predicate ReportsOnly(c: Contract, r: HttpResponse, v: Violation) {
    && MatchPathTemplate(c.paths, r.requestPath).Some?
    && match ResponseSchema(c, r.requestMethod, MatchPathTemplate(c.paths, r.requestPath).value, r.statusCode)
       case NoSchema => CheckResponse(c, r) == [v]
       case Declared(schema) =>
         && CheckResponse(c, r) == [] && Loads(r.text).Some? && Loads(r.text).value != JNull
         && exists e :: Errors(schema, Loads(r.text).value, []) == {e} && ToViolation(e) == v
       case Unresolvable => false
  }

  lemma UndeclaredReported(c: Contract, r: HttpResponse, t: string, responses: map<string, Json>)
    requires MatchPathTemplate(c.paths, r.requestPath) == Some(t) && r.requestMethod != ""
    requires FindOperation(c, r.requestMethod, t) == Some(C.Op(responses))
    requires Decimal(r.statusCode) !in responses
    ensures ReportsOnly(c, r, Violation(UndeclaredStatus, "response.status"))
  {
    OpResponses(responses);
  }

  lemma SchemaErrorReported(c: Contract, r: HttpResponse, t: string, responses: map<string, Json>, s: Json, out: Json,
      e: SchemaError)
    requires MatchPathTemplate(c.paths, r.requestPath) == Some(t) && r.requestMethod != ""
    requires FindOperation(c, r.requestMethod, t) == Some(C.Op(responses))
    requires Declares(responses, Decimal(r.statusCode), C.WithBody(s)) && s != JNull && C.Becomes(c.doc, s, out)
    requires r.ContentType() == "application/json"
    requires Loads(r.text).Some? && Loads(r.text).value != JNull && Errors(out, Loads(r.text).value, []) == {e}
    ensures ReportsOnly(c, r, ToViolation(e))
  {
    OpResponses(responses);
    WithBodyRead(s);
    ChecksOut(c, r, t, C.Op(responses), Content(C.WithBody(s)));
    SchemaFound(c, r.requestMethod, t, r.statusCode, C.Op(responses), s, out);
  }

  lemma CodesUndeclared()
    ensures Decimal(500) !in C.GetResponses() && Decimal(200) !in C.CreateResponses()
  {
    StatusDigits(500);
    StatusDigits(200);
    assert Decimal(500) == "500" && Decimal(200) == "200";
  }

  /** The violation that a mode's bug is reported as. */
  function ViolationOf(mode: BugMode): Violation {
    match mode
    case MissingField => ToViolation(SchemaError([], "required", "name"))
    case WrongType => ToViolation(SchemaError([Key("id")], "type", ""))
    case BadEnum => ToViolation(SchemaError([Key("status")], "enum", ""))
    case _ => Violation(UndeclaredStatus, "response.status")
  }

  lemma ViolationsSpelledOut()
    ensures ViolationOf(MissingField) == Violation(SchemaMissingField, "response.body")
    ensures ViolationOf(WrongType) == Violation(SchemaWrongType, "response.body.id")
    ensures ViolationOf(BadEnum) == Violation(SchemaEnum, "response.body.status")
  {
    assert PathText([]) == "";
    assert PathText([Key("id")]) == ".id" by { assert [Key("id")][1..] == []; }
    assert PathText([Key("status")]) == ".status" by { assert [Key("status")][1..] == []; }
    assert "response.body" + ".id" == "response.body.id";
    assert "response.body" + ".status" == "response.body.status";
  }

  /** The matcher takes exactly the paths that are /devices/ and then digits, at least one. */
  lemma DetailMeans(path: string, t: string)
    requires path == "" + ['/'] + ("devices" + ['/'] + t)
    ensures IsDeviceDetail(path) <==> t != "" && forall i | 0 <= i < |t| :: '0' <= t[i] <= '9'
  {
    SplitAtSeparator("", "devices" + ['/'] + t, '/');
    SplitAtSeparator("devices", t, '/');
    JoinSplit(t, '/');
    if '/' !in t { SplitAtSeparator(t, "", '/'); }
  }

  lemma DetailStarts(path: string)
    requires IsDeviceDetail(path)
    ensures path == "" + ['/'] + ("devices" + ['/'] + Split(path, '/')[2])
  {
    var ps := Split(path, '/');
    JoinSplit(path, '/');
    JoinFour(ps[0], ps[1], ps[2], "");
    assert ps == [ps[0], ps[1], ps[2]];
  }

  lemma DetailHasNoNewline(path: string)
    requires IsDeviceDetail(path)
    ensures !EndsWithNewline(path)
  {
    var ps := Split(path, '/');
    JoinSplit(path, '/');
    JoinFour(ps[0], ps[1], ps[2], "");
    assert ps == [ps[0], ps[1], ps[2]];
    assert path[|path| - 1] == ps[2][|ps[2]| - 1];
    assert IsDigit(ps[2][|ps[2]| - 1]);
  }

  lemma DetailIsNotSearch(path: string)
    requires IsDeviceDetail(path)
    ensures !IsThree(Split(path, '/'), "", "devices", "search")
  {
    assert !IsDigit("search"[0]);
  }

  lemma UpperMethods(m: string)
    requires m == "GET" || m == "POST"
    ensures UpperCase(m) && m != "PUT" && m != "DELETE"
  {
  }

  lemma RouteIsDeclared(r: Request, name: C.OpName)
    requires Route(r).Some? && NameOf(Route(r).value) == name && !EndsWithNewline(r.path)
    requires r.httpMethod == "GET" || r.httpMethod == "POST"
    ensures Reads(C.Pinned(), r, name)
  {
    UpperMethods(r.httpMethod);
    RoutesAgree(r);
    PinnedReads(r);
    RoutedIff(r);
  }

  /** A GET for a device by its number is routed there, and the contract declares it. */
  lemma DetailIsRead(r: Request)
    requires r.httpMethod == "GET" && IsDeviceDetail(r.path)
    ensures Route(r) == Some(Get(Split(r.path, '/')[2])) && Reads(C.Pinned(), r, C.AtGet)
  {
    DetailIsNotSearch(r.path);
    DetailIsGet(r);
    DetailHasNoNewline(r.path);
    RouteIsDeclared(r, C.AtGet);
  }

  lemma DetailIsGet(r: Request)
    requires r.httpMethod == "GET" && HasThird(Split(r.path, '/'), "", "devices")
    requires !IsThree(Split(r.path, '/'), "", "devices", "search")
    ensures Route(r) == Some(Get(Split(r.path, '/')[2]))
  {
  }

  predicate HitsDevice(mode: BugMode) { mode == MissingField || mode == WrongType || mode == BadEnum }

  function DeviceError(mode: BugMode): SchemaError
    requires HitsDevice(mode)
  {
    match mode
    case MissingField => SchemaError([], "required", "name")
    case WrongType => SchemaError([Key("id")], "type", "")
    case BadEnum => SchemaError([Key("status")], "enum", "")
  }

  /** A corrupted device has the one error that its mode stands for. */
  lemma CorruptedDevice(mode: BugMode, r: Request, d: Device) returns (m: map<string, Json>)
    requires HitsDevice(mode) && r.httpMethod == "GET" && IsDeviceDetail(r.path) && 1 <= |d.name| <= 64
    ensures CorruptAnswer(mode, r, Fine(200, DeviceJson(d))) == Fine(200, JObj(m))
    ensures DeviceHas(m, {DeviceError(mode)})
  {
    BugsShow(d, JStr(IntText(d.id)), JStr("exploded"));
    match mode
    case MissingField =>
      m := DeviceJson(d).m - {"name"};
      NamelessErrors(m, d);
    case WrongType =>
      m := DeviceJson(d).m["id" := JStr(IntText(d.id))];
      TextIdErrors(m, d, IntText(d.id));
    case BadEnum =>
      m := DeviceJson(d).m["status" := JStr("exploded")];
      ExplodedErrors(m, d);
  }

  lemma DeviceErrorReported(c: Contract, dumps: Json -> string, r: Request, a: Answer, m: map<string, Json>,
      e: SchemaError)
    requires Reads(c, r, C.AtGet) && r.httpMethod == "GET"
    requires a == Fine(200, JObj(m)) && DeviceHas(m, {e}) && ReadsBack(dumps, a)
    ensures ReportsOnly(c, ToResponse(dumps, a, r), ToViolation(e))
  {
    GetDeclares();
    StatusNames();
    DeviceResolves(c.doc);
    JsonContentType(dumps, a, r);
    SchemaErrorReported(c, ToResponse(dumps, a, r), MatchPathTemplate(c.paths, r.path).value, C.ResponseTable(C.AtGet),
      C.Ref("Device"), C.DeviceOut(), e);
  }

  lemma DevicesPath(path: string)
    requires path == C.DEVICES
    ensures IsTwo(Split(path, '/'), "", "devices") && !EndsWithNewline(path)
  {
    SplitDevices();
    assert path[|path| - 1] == 's';
  }

  lemma CreateIsRead(r: Request)
    requires r.httpMethod == "POST" && r.path == C.DEVICES
    ensures Route(r) == Some(Create(r.body)) && Reads(C.Pinned(), r, C.AtCreate)
  {
    CreateIsRouted(r);
    RouteIsDeclared(r, C.AtCreate);
  }

  lemma CreateIsRouted(r: Request)
    requires r.httpMethod == "POST" && r.path == C.DEVICES
    ensures Route(r) == Some(Create(r.body)) && !EndsWithNewline(r.path)
  {
    DevicesPath(r.path);
    DevicesIsCreate(r);
  }

  lemma DevicesIsCreate(r: Request)
    requires r.httpMethod == "POST" && IsTwo(Split(r.path, '/'), "", "devices")
    ensures Route(r) == Some(Create(r.body))
  {
  }

  lemma ListIsRead(r: Request)
    requires r.httpMethod == "GET" && r.path == C.DEVICES
    ensures Route(r) == Some(List(Param(r, "limit"), Param(r, "offset"))) && Reads(C.Pinned(), r, C.AtList)
  {
    DevicesPath(r.path);
    DevicesIsList(r);
    RouteIsDeclared(r, C.AtList);
  }

  lemma DevicesIsList(r: Request)
    requires r.httpMethod == "GET" && IsTwo(Split(r.path, '/'), "", "devices")
    ensures Route(r) == Some(List(Param(r, "limit"), Param(r, "offset")))
  {
  }

  lemma HealthyDetail(store: Store, r: Request, id: string) returns (d: Device)
    requires NamesFit(store) && Route(r) == Some(Get(id)) && Serve(store, r).1.status == 200
    ensures 1 <= |d.name| <= 64 && Serve(store, r).1 == Fine(200, DeviceJson(d))
  {
    d := store.devices[ParseInt(id).value];
  }

  lemma StatusReported(c: Contract, dumps: Json -> string, r: Request, name: C.OpName, a: Answer)
    requires Reads(c, r, name) && r.httpMethod != "" && Decimal(a.status) !in C.ResponseTable(name)
    ensures ReportsOnly(c, ToResponse(dumps, a, r), Violation(UndeclaredStatus, "response.status"))
  {
    UndeclaredReported(c, ToResponse(dumps, a, r), MatchPathTemplate(c.paths, r.path).value, C.ResponseTable(name));
  }

  /** What a mode does to the answer it aims at. */
  lemma DispatchedDevice(mode: BugMode, store: Store, r: Request, id: string) returns (m: map<string, Json>)
    requires Good(store) && HitsDevice(mode) && OnTarget(mode, r, Serve(store, r).1) && Route(r) == Some(Get(id))
    ensures Dispatch(mode, store, r).1 == Fine(200, JObj(m)) && DeviceHas(m, {DeviceError(mode)})
  {
    var d := HealthyDetail(store, r, id);
    m := CorruptedDevice(mode, r, d);
  }

  lemma OnlyNoContentIsEmpty(store: Store, r: Request)
    ensures Serve(store, r).1.body.None? ==> Serve(store, r).1.status == 204
  {
  }

  lemma StatusChanged(r: Request, a: Answer)
    requires r.httpMethod == "POST" && r.path == C.DEVICES && a.status == 201 && a.body.Some?
    ensures CorruptAnswer(WrongStatus, r, a).status == 200
  {
  }

  lemma DispatchedStatus(mode: BugMode, store: Store, r: Request)
    requires mode == WrongStatus || mode == Undeclared500
    requires OnTarget(mode, r, Serve(store, r).1)
    ensures Dispatch(mode, store, r).1.status == if mode == WrongStatus then 200 else 500
  {
    if mode == WrongStatus {
      OnlyNoContentIsEmpty(store, r);
      StatusChanged(r, Serve(store, r).1);
    }
  }

  lemma CodesNotInTables()
    ensures Decimal(500) !in C.ResponseTable(C.AtGet) && Decimal(200) !in C.ResponseTable(C.AtCreate)
  {
    CodesUndeclared();
  }

  lemma DeviceBugReported(c: Contract, mode: BugMode, dumps: Json -> string, r: Request, a: Answer,
      m: map<string, Json>)
    requires HitsDevice(mode) && Reads(c, r, C.AtGet) && r.httpMethod == "GET"
    requires a == Fine(200, JObj(m)) && DeviceHas(m, {DeviceError(mode)}) && ReadsBack(dumps, a)
    ensures ReportsOnly(c, ToResponse(dumps, a, r), ViolationOf(mode))
  {
    DeviceErrorReported(c, dumps, r, a, m, DeviceError(mode));
  }

  lemma DeviceBugIsReported(mode: BugMode, dumps: Json -> string, store: Store, r: Request)
    requires Good(store) && HitsDevice(mode) && OnTarget(mode, r, Serve(store, r).1)
    requires ReadsBack(dumps, Dispatch(mode, store, r).1)
    ensures ReportsOnly(C.Pinned(), ToResponse(dumps, Dispatch(mode, store, r).1, r), ViolationOf(mode))
  {
    DetailIsRead(r);
    var m := DispatchedDevice(mode, store, r, Split(r.path, '/')[2]);
    DeviceBugReported(C.Pinned(), mode, dumps, r, Dispatch(mode, store, r).1, m);
  }

  lemma StatusBugReported(mode: BugMode, dumps: Json -> string, r: Request, name: C.OpName, a: Answer)
    requires Reads(C.Pinned(), r, name) && r.httpMethod != ""
    requires || (mode == WrongStatus && name == C.AtCreate && a.status == 200)
             || (mode == Undeclared500 && name == C.AtGet && a.status == 500)
    ensures ReportsOnly(C.Pinned(), ToResponse(dumps, a, r), ViolationOf(mode))
  {
    CodesNotInTables();
    StatusReported(C.Pinned(), dumps, r, name, a);
  }

  lemma CrashIsReported(mode: BugMode, dumps: Json -> string, store: Store, r: Request)
    requires mode == Undeclared500 && OnTarget(mode, r, Serve(store, r).1)
    ensures ReportsOnly(C.Pinned(), ToResponse(dumps, Dispatch(mode, store, r).1, r), ViolationOf(mode))
  {
    DetailIsRead(r);
    DispatchedStatus(mode, store, r);
    StatusBugReported(mode, dumps, r, C.AtGet, Dispatch(mode, store, r).1);
  }

  lemma WrongStatusIsReported(mode: BugMode, dumps: Json -> string, store: Store, r: Request)
    requires mode == WrongStatus && OnTarget(mode, r, Serve(store, r).1)
    ensures ReportsOnly(C.Pinned(), ToResponse(dumps, Dispatch(mode, store, r).1, r), ViolationOf(mode))
  {
    CreateIsRead(r);
    DispatchedStatus(mode, store, r);
    StatusBugReported(mode, dumps, r, C.AtCreate, Dispatch(mode, store, r).1);
  }

  /** On target, the harness reports the mode's violation and nothing else. */
  lemma BugIsReported(mode: BugMode, dumps: Json -> string, store: Store, r: Request)
    requires Good(store) && OnTarget(mode, r, Serve(store, r).1) && mode != OffByOnePage
    requires ReadsBack(dumps, Dispatch(mode, store, r).1)
    ensures ReportsOnly(C.Pinned(), ToResponse(dumps, Dispatch(mode, store, r).1, r), ViolationOf(mode))
  {
    if HitsDevice(mode) {
      DeviceBugIsReported(mode, dumps, store, r);
    } else if mode == Undeclared500 {
      CrashIsReported(mode, dumps, store, r);
    } else {
      WrongStatusIsReported(mode, dumps, store, r);
    }
  }

  // ----- the bug that no schema sees -----

  /** The page with its last item doubled. */
  function Doubled(ds: seq<Device>): seq<Device> { if ds == [] then [] else ds + [ds[|ds| - 1]] }

  lemma DoubledList(ds: seq<Device>)
    requires ds != []
    ensures var items := DeviceList(ds).items; DeviceList(Doubled(ds)) == JArr(items + [items[|items| - 1]])
  {
    var items := DeviceList(ds).items;
    assert DeviceList(Doubled(ds)).items == items + [items[|items| - 1]];
  }

  lemma DoubledFits(ds: seq<Device>)
    requires Fit(ds)
    ensures Fit(Doubled(ds))
  {
  }

  lemma PageWithItems(items: Json, other: Json, total: int, limit: int, offset: int)
    ensures var page := PageOf(items, total, limit, offset);
            && "items" in page.m && page.m["items"] == items
            && JObj(page.m["items" := other]) == PageOf(other, total, limit, offset)
  {
    assert PageOf(items, total, limit, offset).m["items" := other] == PageOf(other, total, limit, offset).m;
  }

  /** What OFF_BY_ONE_PAGE makes of a page. */
  lemma PageCorrupted(r: Request, ds: seq<Device>, total: int, limit: int, offset: int)
    requires r.httpMethod == "GET" && r.path == C.DEVICES
    ensures CorruptAnswer(OffByOnePage, r, Fine(200, PageJson(ds, total, limit, offset)))
            == Fine(200, PageJson(Doubled(ds), total, limit, offset))
  {
    PageWithItems(DeviceList(ds), DeviceList(Doubled(ds)), total, limit, offset);
    if ds != [] { DoubledList(ds); }
  }

  lemma PageKept(doc: Json, a: Answer, ds: seq<Device>, total: int, limit: int, offset: int)
    requires C.BodiesResolve(doc) && Fit(ds) && a == Fine(200, PageJson(ds, total, limit, offset))
    ensures KeptAs(doc, C.AtList, a)
  {
    StatusNames();
    ListDeclares();
    PageResolves(doc);
    PageFine(ds, total, limit, offset, []);
    BodyIsKept(doc, C.ResponseTable(C.AtList), a, C.Ref("DevicePage"), C.PageSchema(C.DeviceOut()));
  }

  /** A good answer to GET /devices shows a page of the registry. */
  lemma HealthyPage(store: Store, r: Request) returns (limit: nat, offset: nat)
    requires Route(r) == Some(List(Param(r, "limit"), Param(r, "offset"))) && Serve(store, r).1.status == 200
    ensures limit >= 1
    ensures IntParam(Param(r, "limit"), 50, 1, Some(100)) == Some(limit)
    ensures IntParam(Param(r, "offset"), 0, 0, None) == Some(offset)
    ensures Serve(store, r).1
            == Fine(200, PageJson(PageDevices(store, limit, offset).0, PageDevices(store, limit, offset).1,
                                  limit, offset))
  {
    limit := IntParam(Param(r, "limit"), 50, 1, Some(100)).value;
    offset := IntParam(Param(r, "offset"), 0, 0, None).value;
  }

  lemma DoubledPageKept(doc: Json, store: Store, r: Request)
    requires C.BodiesResolve(doc) && NamesFit(store)
    requires r.httpMethod == "GET" && r.path == C.DEVICES
    requires Route(r) == Some(List(Param(r, "limit"), Param(r, "offset"))) && Serve(store, r).1.status == 200
    ensures KeptAs(doc, C.AtList, Dispatch(OffByOnePage, store, r).1)
  {
    var limit, offset := HealthyPage(store, r);
    var (ds, total) := PageDevices(store, limit, offset);
    ListFits(store);
    SliceFits(ListDevices(store), offset, limit);
    DoubledFits(ds);
    PageCorrupted(r, ds, total, limit, offset);
    PageKept(doc, Dispatch(OffByOnePage, store, r).1, Doubled(ds), total, limit, offset);
  }

  /** The contract checks and the schema check see nothing wrong with a doubled item. */
  lemma OffByOneConforms(dumps: Json -> string, store: Store, r: Request)
    requires Good(store) && OnTarget(OffByOnePage, r, Serve(store, r).1)
    requires ReadsBack(dumps, Dispatch(OffByOnePage, store, r).1)
    ensures Conforms(C.Pinned(), ToResponse(dumps, Dispatch(OffByOnePage, store, r).1, r))
  {
    ListIsRead(r);
    DoubledPageKept(C.Pinned().doc, store, r);
    AnswerConforms(C.Pinned(), dumps, r, C.AtList, Dispatch(OffByOnePage, store, r).1,
      ToResponse(dumps, Dispatch(OffByOnePage, store, r).1, r));
  }

  /** `max_length: limit` for the items of the page. */
  function AtMost(limit: int): Expectation { Expectation("items", None, Some(limit), None, None, None) }

  lemma DigItems(items: Json, total: int, limit: int, offset: int)
    ensures Dig(PageOf(items, total, limit, offset), "items") == Some(items)
  {
    var key := "items";
    assert '.' !in key;
    SplitAtSeparator(key, "", '.');
    PageWithItems(items, items, total, limit, offset);
    assert DigParts(items, [key][1..]) == Some(items);
  }

  lemma AtMostHolds(ds: seq<Device>, total: int, limit: int, offset: int, most: int)
    ensures !Raises(PageJson(ds, total, limit, offset), AtMost(most))
    ensures Holds(PageJson(ds, total, limit, offset), AtMost(most)) <==> |ds| <= most
  {
    DigItems(DeviceList(ds), total, limit, offset);
  }

  lemma ListHandled(store: Store, limitText: Option<string>, offsetText: Option<string>, limit: nat, offset: nat)
    requires IntParam(limitText, 50, 1, Some(100)) == Some(limit) && limit >= 1
    requires IntParam(offsetText, 0, 0, None) == Some(offset)
    ensures HandleList(store, limitText, offsetText)
            == Fine(200, PageJson(PageDevices(store, limit, offset).0, |store.devices|, limit, offset))
  {
  }

  lemma ListServed(store: Store, r: Request, limitText: Option<string>, offsetText: Option<string>)
    requires Route(r) == Some(List(limitText, offsetText))
    ensures Serve(store, r).1 == HandleList(store, limitText, offsetText)
  {
  }

  lemma ListAnswers(store: Store, r: Request, limit: nat, offset: nat)
    requires Route(r) == Some(List(Param(r, "limit"), Param(r, "offset"))) && limit >= 1
    requires IntParam(Param(r, "limit"), 50, 1, Some(100)) == Some(limit)
    requires IntParam(Param(r, "offset"), 0, 0, None) == Some(offset)
    ensures Serve(store, r).1
            == Fine(200, PageJson(PageDevices(store, limit, offset).0, |store.devices|, limit, offset))
  {
    ListHandled(store, Param(r, "limit"), Param(r, "offset"), limit, offset);
    ListServed(store, r, Param(r, "limit"), Param(r, "offset"));
  }

  lemma DoubledAnswers(store: Store, r: Request, ds: seq<Device>, total: int, limit: int, offset: int)
    requires r.httpMethod == "GET" && r.path == C.DEVICES
    requires Serve(store, r).1 == Fine(200, PageJson(ds, total, limit, offset))
    ensures Dispatch(OffByOnePage, store, r).1 == Fine(200, PageJson(Doubled(ds), total, limit, offset))
  {
    PageCorrupted(r, ds, total, limit, offset);
  }

  /**
    A declarative expectation sees it when the page is full: `max_length: limit` always holds of
    a healthy page, and fails of a doubled one exactly when offset + limit <= total.
   */
  lemma OffByOneIsExpectedAway(store: Store, r: Request, limit: nat, offset: nat)
    requires r.httpMethod == "GET" && r.path == C.DEVICES && limit >= 1
    requires IntParam(Param(r, "limit"), 50, 1, Some(100)) == Some(limit)
    requires IntParam(Param(r, "offset"), 0, 0, None) == Some(offset)
    ensures Serve(store, r).1.body.Some? && Dispatch(OffByOnePage, store, r).1.body.Some?
    ensures Holds(Serve(store, r).1.body.value, AtMost(limit))
    ensures Holds(Dispatch(OffByOnePage, store, r).1.body.value, AtMost(limit)) <==> offset + limit > |store.devices|
  {
    DevicesPath(r.path);
    DevicesIsList(r);
    ListAnswers(store, r, limit, offset);
    var ds := PageDevices(store, limit, offset).0;
    DoubledAnswers(store, r, ds, |store.devices|, limit, offset);
    AtMostHolds(ds, |store.devices|, limit, offset, limit);
    AtMostHolds(Doubled(ds), |store.devices|, limit, offset, limit);
  }

  // ----- isolated, and detected exactly -----

  lemma ReportedIsNotConforming(c: Contract, r: HttpResponse, v: Violation)
    requires ReportsOnly(c, r, v)
    ensures !Conforms(c, r)
  {
  }

  /**
    For a declared operation, in every reachable store and under every mode: the harness's checks
    pass exactly when the mode does not aim at the request, or is the one no schema can see.
   */
  lemma DetectedExactly(mode: BugMode, dumps: Json -> string, before: seq<Request>, r: Request)
    requires UpperCase(r.httpMethod) && !EndsWithNewline(r.path) && IsDeclared(C.Pinned(), r)
    requires ReadsBack(dumps, Dispatch(mode, StoreAfter(Seeded(), before), r).1)
    ensures var store := StoreAfter(Seeded(), before);
      Conforms(C.Pinned(), ToResponse(dumps, Dispatch(mode, store, r).1, r))
      <==> !OnTarget(mode, r, Serve(store, r).1) || mode == OffByOnePage
  {
    EveryRunIsGood(before);
    DetectedInGoodStore(mode, dumps, StoreAfter(Seeded(), before), r);
  }

  lemma DetectedInGoodStore(mode: BugMode, dumps: Json -> string, store: Store, r: Request)
    requires Good(store) && UpperCase(r.httpMethod) && !EndsWithNewline(r.path) && IsDeclared(C.Pinned(), r)
    requires ReadsBack(dumps, Dispatch(mode, store, r).1)
    ensures Conforms(C.Pinned(), ToResponse(dumps, Dispatch(mode, store, r).1, r))
            <==> !OnTarget(mode, r, Serve(store, r).1) || mode == OffByOnePage
  {
    if !OnTarget(mode, r, Serve(store, r).1) {
      OffTargetIsHealthy(mode, store, r);
      GoodStoreConforms(dumps, store, r);
    } else if mode == OffByOnePage {
      OffByOneConforms(dumps, store, r);
    } else {
      BugIsReported(mode, dumps, store, r);
      ReportedIsNotConforming(C.Pinned(), ToResponse(dumps, Dispatch(mode, store, r).1, r), ViolationOf(mode));
    }
  }

  lemma CorruptedPrintable(mode: BugMode, r: Request, a: Answer)
    requires BodyPrintable(a)
    ensures BodyPrintable(CorruptAnswer(mode, r, a))
  {
    if a.body.Some? {
      var j := a.body.value;
      if j.JObj? && "items" in j.m && j.m["items"].JArr? && j.m["items"].items != [] {
        assert Printable(j.m["items"]);
        LastTwicePrintable(j.m["items"].items);
      }
    }
  }

  lemma LastTwicePrintable(items: seq<Json>)
    requires items != [] && Printable(JArr(items))
    ensures Printable(JArr(items + [items[|items| - 1]]))
  {
    var twice := items + [items[|items| - 1]];
    forall i | 0 <= i < |twice| ensures Printable(twice[i]) {
      assert twice[i] == items[if i < |items| then i else |items| - 1];
    }
  }

  lemma DispatchedPrintable(st: Style, mode: BugMode, store: Store, r: Request)
    requires NamesFit(store) && Route(r).Some?
    ensures ReadsBack(Printer(st), Dispatch(mode, store, r).1)
  {
    HandlePrintable(store, Route(r).value);
    CorruptedPrintable(mode, r, Serve(store, r).1);
    ErrorPrintable(500, "seeded fault: undeclared_500");
    PrintReadsBack(st, Dispatch(mode, store, r).1);
  }

  /** The same for every style of printing, with nothing left to suppose about the serializer. */
  lemma PrintedDetectedExactly(st: Style, mode: BugMode, before: seq<Request>, r: Request)
    requires UpperCase(r.httpMethod) && !EndsWithNewline(r.path) && IsDeclared(C.Pinned(), r)
    ensures var store := StoreAfter(Seeded(), before);
      Conforms(C.Pinned(), ToResponse(Printer(st), Dispatch(mode, store, r).1, r))
      <==> !OnTarget(mode, r, Serve(store, r).1) || mode == OffByOnePage
  {
    EveryRunIsGood(before);
    RoutesAgree(r);
    DispatchedPrintable(st, mode, StoreAfter(Seeded(), before), r);
    DetectedExactly(mode, Printer(st), before, r);
  }

  lemma ListsOne(es: seq<SchemaError>, e: SchemaError)
    requires Lists(es, {e})
    ensures es == [e]
  {
    assert es[0] in es;
  }

  lemma ListsNone(es: seq<SchemaError>)
    requires Lists(es, {})
    ensures es == []
  {
  }

  /** The case is about this response, and asks for its status and for nothing else. */
  predicate AsksOnlyForStatus(c: Contract, k: TestCase, r: HttpResponse) {
    && r.requestPath == k.request.path && r.requestMethod == k.request.httpMethod
    && MatchPathTemplate(c.paths, r.requestPath) != Some("")
    && k.expectStatus == r.statusCode && k.expectations == []
  }

  lemma StatusOnlyLists(c: Contract, k: TestCase, r: HttpResponse)
    requires AsksOnlyForStatus(c, k, r) && !JudgingRaises(c, k, r)
    ensures LastViolations(c, k, r) == []
    ensures (SchemaFor(c, k, r).Declared? && Loads(r.text).None?) || FirstViolations(c, k, r) == CheckResponse(c, r)
  {
    NoneExpectedNoneFailed(c, k, r);
    StatusAloneIsFine(c, k, r);
  }

  lemma NoneExpectedNoneFailed(c: Contract, k: TestCase, r: HttpResponse)
    requires k.expectations == [] && !JudgingRaises(c, k, r)
    ensures LastViolations(c, k, r) == []
  {
  }

  lemma StatusAloneIsFine(c: Contract, k: TestCase, r: HttpResponse)
    requires k.expectStatus == r.statusCode && k.expectations == []
    ensures (SchemaFor(c, k, r).Declared? && Loads(r.text).None?) || FirstViolations(c, k, r) == CheckResponse(c, r)
  {
    NothingUnread(c, k, r, SchemaFor(c, k, r), Loads(r.text));
    OnlyMiddle(StatusViolations(k, r), CheckResponse(c, r), NotJsonViolations(c, k, r));
  }

  lemma NothingUnread(c: Contract, k: TestCase, r: HttpResponse, schema: SchemaLookup, read: Option<Json>)
    requires k.expectations == [] && schema == SchemaFor(c, k, r) && read == Loads(r.text)
    ensures (schema.Declared? && read.None?) || NotJsonViolations(c, k, r) == []
  {
  }

  lemma OnlyMiddle(a: seq<Violation>, b: seq<Violation>, c: seq<Violation>)
    ensures a == [] && c == [] ==> a + b + c == b
  {
  }

  lemma SchemaForIs(c: Contract, k: TestCase, r: HttpResponse)
    requires AsksOnlyForStatus(c, k, r) && MatchPathTemplate(c.paths, r.requestPath).Some?
    ensures SchemaFor(c, k, r)
            == ResponseSchema(c, r.requestMethod, MatchPathTemplate(c.paths, r.requestPath).value, r.statusCode)
  {
  }

  lemma ReportedErrors(c: Contract, k: TestCase, r: HttpResponse, v: Violation)
    requires ReportsOnly(c, r, v) && AsksOnlyForStatus(c, k, r)
    ensures if SchemaFor(c, k, r).Declared?
            then CheckResponse(c, r) == [] && Loads(r.text).Some?
                 && exists e :: SchemaErrorsOf(c, k, r) == {e} && ToViolation(e) == v
            else CheckResponse(c, r) == [v] && SchemaErrorsOf(c, k, r) == {}
  {
    SchemaForIs(c, k, r);
    if SchemaFor(c, k, r).Declared? {
      var e :| Errors(SchemaFor(c, k, r).schema, Loads(r.text).value, []) == {e} && ToViolation(e) == v;
      assert SchemaErrorsOf(c, k, r) == {e};
    }
  }

  /** A case that asks for the status it gets, and for nothing else, fails with that one violation. */
  lemma VerdictNamesTheBug(c: Contract, k: TestCase, r: HttpResponse, v: Violation, vs: seq<Violation>)
    requires ReportsOnly(c, r, v) && AsksOnlyForStatus(c, k, r)
    requires !JudgingRaises(c, k, r) && IsVerdict(vs, c, k, r)
    ensures vs == [v]
  {
    StatusOnlyLists(c, k, r);
    ReportedErrors(c, k, r, v);
    VerdictOf(vs, c, k, r, v);
  }

  lemma VerdictOf(vs: seq<Violation>, c: Contract, k: TestCase, r: HttpResponse, v: Violation)
    requires !JudgingRaises(c, k, r) && IsVerdict(vs, c, k, r) && LastViolations(c, k, r) == []
    requires || (FirstViolations(c, k, r) == [] && exists e :: SchemaErrorsOf(c, k, r) == {e} && ToViolation(e) == v)
             || (FirstViolations(c, k, r) == [v] && SchemaErrorsOf(c, k, r) == {})
    ensures vs == [v]
  {
    var es :| Lists(es, SchemaErrorsOf(c, k, r))
      && vs == FirstViolations(c, k, r) + ToViolations(es) + LastViolations(c, k, r);
    OneListed(vs, FirstViolations(c, k, r), es, SchemaErrorsOf(c, k, r), v);
  }

  lemma OneListed(vs: seq<Violation>, first: seq<Violation>, es: seq<SchemaError>, errors: set<SchemaError>,
      v: Violation)
    requires Lists(es, errors) && vs == first + ToViolations(es) + []
    requires || (first == [] && exists e :: errors == {e} && ToViolation(e) == v)
             || (first == [v] && errors == {})
    ensures vs == [v]
  {
    if first == [] {
      var e :| errors == {e} && ToViolation(e) == v;
      ListsOne(es, e);
    } else {
      ListsNone(es);
    }
  }

  // ----- what the harness does not see -----

  /** A service that answers `null`. */
  ghost function NullAnswer(st: Style, r: Request): HttpResponse { ToResponse(Printer(st), Fine(200, JNull), r) }

  lemma NullIsRead(st: Style, r: Request)
    ensures Loads(NullAnswer(st, r).text) == Some(JNull) && NullAnswer(st, r).ContentType() == "application/json"
  {
    PrintedReadsBack(st, JNull);
    JsonContentType(Printer(st), Fine(200, JNull), r);
  }

  lemma NullIsNoDevice()
    ensures !Accepts(C.DeviceOut(), JNull)
  {
    assert !TypeAllows(C.DeviceOut().m["type"], JNull);
    assert !LocalAccepts(C.DeviceOut().m, JNull);
  }

  /** What the checks find about `null` where a device is declared. */
  lemma NullChecksOut(st: Style, c: Contract, r: Request)
    requires Reads(c, r, C.AtGet) && r.httpMethod != ""
    ensures var t := MatchPathTemplate(c.paths, r.path).value;
      && CheckResponse(c, NullAnswer(st, r)) == []
      && ResponseSchema(c, r.httpMethod, t, 200) == Declared(C.DeviceOut())
  {
    var t, responses := MatchPathTemplate(c.paths, r.path).value, C.ResponseTable(C.AtGet);
    StatusNames();
    GetDeclares();
    DeviceResolves(c.doc);
    OpResponses(responses);
    WithBodyRead(C.Ref("Device"));
    NullIsRead(st, r);
    ChecksOut(c, NullAnswer(st, r), t, C.Op(responses), Content(C.WithBody(C.Ref("Device"))));
    SchemaFound(c, r.httpMethod, t, 200, C.Op(responses), C.Ref("Device"), C.DeviceOut());
  }

  /** A GET for a device that is answered `null` passes, although the declared schema rejects null. */
  lemma NullPassesForADevice(st: Style, r: Request, k: TestCase, vs: seq<Violation>)
    requires UpperCase(r.httpMethod) && !EndsWithNewline(r.path) && IsDeclared(C.Pinned(), r)
    requires NameFor(r) == Some(C.AtGet) && r.httpMethod != ""
    requires AsksOnlyForStatus(C.Pinned(), k, NullAnswer(st, r))
    requires !JudgingRaises(C.Pinned(), k, NullAnswer(st, r)) && IsVerdict(vs, C.Pinned(), k, NullAnswer(st, r))
    ensures vs == []
    ensures SchemaFor(C.Pinned(), k, NullAnswer(st, r)) == Declared(C.DeviceOut()) && !Accepts(C.DeviceOut(), JNull)
  {
    PinnedReads(r);
    NullIsNoDevice();
    NullPasses(st, C.Pinned(), r, k, vs);
  }

  lemma NullPasses(st: Style, c: Contract, r: Request, k: TestCase, vs: seq<Violation>)
    requires Reads(c, r, C.AtGet) && r.httpMethod != "" && AsksOnlyForStatus(c, k, NullAnswer(st, r))
    requires !JudgingRaises(c, k, NullAnswer(st, r)) && IsVerdict(vs, c, k, NullAnswer(st, r))
    ensures vs == [] && SchemaFor(c, k, NullAnswer(st, r)) == Declared(C.DeviceOut())
  {
    var response := NullAnswer(st, r);
    NullIsRead(st, r);
    NullChecksOut(st, c, r);
    SchemaForIs(c, k, response);
    StatusOnlyLists(c, k, response);
    SilentVerdict(vs, c, k, response);
  }

  lemma SilentVerdict(vs: seq<Violation>, c: Contract, k: TestCase, r: HttpResponse)
    requires !JudgingRaises(c, k, r) && IsVerdict(vs, c, k, r) && LastViolations(c, k, r) == []
    requires FirstViolations(c, k, r) == [] && !HasValue(r)
    ensures vs == []
  {
    var es :| Lists(es, SchemaErrorsOf(c, k, r))
      && vs == FirstViolations(c, k, r) + ToViolations(es) + LastViolations(c, k, r);
    ListsNone(es);
  }
}
