/**
  The service under test as a transition function: api/main.py, api/models.py, api/errors.py.
  Routing and validation are those of the framework for these eight endpoints.
 */
module Service {
  import opened Json
  import opened Text
  import opened Plan
  import opened Store
  import opened Validator

  // ----- documents -----

  function StatusText(s: Status): string {
    match s
    case Online => "online"
    case Offline => "offline"
    case Degraded => "degraded"
  }

  function ParseStatus(text: string): Option<Status> {
    match text
    case "online" => Some(Online)
    case "offline" => Some(Offline)
    case "degraded" => Some(Degraded)
    case _ => None
  }

  function DeviceJson(d: Device): Json {
    JObj(map["id" := JInt(d.id), "name" := JStr(d.name), "status" := JStr(StatusText(d.status))])
  }

  function DeviceList(ds: seq<Device>): Json {
    JArr(seq(|ds|, i requires 0 <= i < |ds| => DeviceJson(ds[i])))
  }

  function PageOf(items: Json, total: int, limit: int, offset: int): Json {
    JObj(map["items" := items, "total" := JInt(total), "limit" := JInt(limit), "offset" := JInt(offset)])
  }

  function PageJson(items: seq<Device>, total: int, limit: int, offset: int): Json {
    PageOf(DeviceList(items), total, limit, offset)
  }

  /** `_CODE_BY_STATUS`. */
  function ErrorCode(status: nat): string {
    match status
    case 400 => "bad_request"
    case 404 => "not_found"
    case 405 => "method_not_allowed"
    case 409 => "conflict"
    case 422 => "validation_error"
    case 500 => "internal_error"
    case _ => "error"
  }

  function ErrorJson(status: nat, message: string): Json {
    JObj(map["error" := JObj(map["code" := JStr(ErrorCode(status)), "message" := JStr(message)])])
  }

  // ----- requests -----

  datatype Operation =
    | Health
    | List(limit: Option<string>, offset: Option<string>)
    | Create(body: Body)
    | Search(nameContains: Option<string>, status: Option<string>)
    | Get(id: string)
    | Replace(id: string, body: Body)
    | Delete(id: string)
    | SetState(id: string, body: Body)

  function Param(r: Request, name: string): Option<string> {
    if name in r.params then Some(r.params[name]) else None
  }

  predicate IsTwo(ps: seq<string>, a: string, b: string) { |ps| == 2 && ps[0] == a && ps[1] == b }

  predicate IsThree(ps: seq<string>, a: string, b: string, c: string) {
    |ps| == 3 && ps[0] == a && ps[1] == b && ps[2] == c
  }

  predicate HasThird(ps: seq<string>, a: string, b: string) {
    |ps| == 3 && ps[0] == a && ps[1] == b && ps[2] != ""
  }

  predicate HasThirdAnd(ps: seq<string>, a: string, b: string, d: string) {
    |ps| == 4 && ps[0] == a && ps[1] == b && ps[2] != "" && ps[3] == d
  }

  /** The first route, in the order of registration, that fits path and method. */
  function Route(r: Request): Option<Operation> {
    var ps := Split(r.path, '/');
    if IsTwo(ps, "", "health") && r.httpMethod == "GET" then Some(Health)
    else if IsTwo(ps, "", "devices") && r.httpMethod == "GET" then Some(List(Param(r, "limit"), Param(r, "offset")))
    else if IsTwo(ps, "", "devices") && r.httpMethod == "POST" then Some(Create(r.body))
    else if IsThree(ps, "", "devices", "search") && r.httpMethod == "GET" then
      Some(Search(Param(r, "name_contains"), Param(r, "status")))
    else if HasThird(ps, "", "devices") then
      if r.httpMethod == "GET" then Some(Get(ps[2]))
      else if r.httpMethod == "PUT" then Some(Replace(ps[2], r.body))
      else if r.httpMethod == "DELETE" then Some(Delete(ps[2]))
      else None
    else if HasThirdAnd(ps, "", "devices", "status") && r.httpMethod == "PATCH" then Some(SetState(ps[2], r.body))
    else None
  }

  /** An integer query parameter: its value or the default, None when it fails validation. */
  function IntParam(text: Option<string>, default: int, low: int, high: Option<int>): Option<int> {
    match text
    case None => Some(default)
    case Some(t) =>
      match ParseInt(t)
      case None => None
      case Some(n) => if low <= n && (high.Some? ==> n <= high.value) then Some(n) else None
  }

  predicate ValidName(j: Json) { j.JStr? && 1 <= |j.s| <= 64 }

  function StatusField(j: Json): Option<Status> {
    match j
    case JStr(s) => ParseStatus(s)
    case _ => None
  }

  /** `DeviceCreate`: the status may be left out. */
  function ValidCreate(j: Json): (r: Option<(string, Status)>)
    ensures r.Some? ==> 1 <= |r.value.0| <= 64
  {
    if j.JObj? && "name" in j.m && ValidName(j.m["name"]) then
      if "status" !in j.m then Some((j.m["name"].s, Offline))
      else
        match StatusField(j.m["status"])
        case None => None
        case Some(status) => Some((j.m["name"].s, status))
    else None
  }

  /** `DeviceUpdate`: every field is required. */
  function ValidUpdate(j: Json): (r: Option<(string, Status)>)
    ensures r.Some? ==> 1 <= |r.value.0| <= 64
  {
    if j.JObj? && "status" in j.m then ValidCreate(j) else None
  }

  /** `StatusUpdate`. */
  function ValidStatus(j: Json): Option<Status> {
    if j.JObj? && "status" in j.m then StatusField(j.m["status"]) else None
  }

  // ----- answers -----

  datatype Answer = Answer(status: nat, body: Option<Json>, location: Option<string>)

  function Fine(status: nat, body: Json): Answer { Answer(status, Some(body), None) }

  function Problem(status: nat, message: string): Answer { Answer(status, Some(ErrorJson(status, message)), None) }

  function Invalid(): Answer { Problem(422, "Request validation failed") }

  function NotJson(): Answer { Problem(400, "There was an error parsing the body") }

  function NoDevice(id: int): Answer { Problem(404, "No device with id " + IntText(id)) }

  function NameExists(name: string): Answer { Problem(409, "A device named '" + name + "' already exists") }

  function IllegalTransition(from: Status, to: Status): Answer {
    Problem(409, "Illegal transition: " + StatusText(from) + " -> " + StatusText(to))
  }

  // ----- handlers -----

  function HandleList(store: Store, limit: Option<string>, offset: Option<string>): Answer {
    var l, o := IntParam(limit, 50, 1, Some(100)), IntParam(offset, 0, 0, None);
    if l.None? || o.None? || l.value < 1 || o.value < 0 then Invalid()
    else
      var (items, total) := PageDevices(store, l.value, o.value);
      Fine(200, PageJson(items, total, l.value, o.value))
  }

  function HandleCreate(store: Store, body: Body): (Store, Answer) {
    match body
    case NoBody => (store, Invalid())
    case Garbled => (store, NotJson())
    case Payload(j) =>
      match ValidCreate(j)
      case None => (store, Invalid())
      case Some((name, status)) =>
        if NameTaken(store, name) then (store, NameExists(name))
        else
          (Created(store, name, status),
           Answer(201, Some(DeviceJson(Device(store.nextId, name, status))), Some("/devices/" + IntText(store.nextId))))
  }

  function NameContains(d: Device, part: string): bool { Contains(Lower(d.name), Lower(part)) }

  /** `part in s`. */
  predicate Contains(s: string, part: string) {
    |part| <= |s| && (s[..|part|] == part || (s != "" && Contains(s[1..], part)))
  }

  predicate HasStatus(d: Device, status: string) { Some(d.status) == ParseStatus(status) }

  function Named(store: Store, nameContains: Option<string>): seq<Device> {
    match nameContains
    case None => ListDevices(store)
    case Some(part) => Select(ListDevices(store), d => NameContains(d, part))
  }

  /** `search_devices`. */
  function Found(store: Store, nameContains: Option<string>, status: Option<string>): seq<Device> {
    match status
    case None => Named(store, nameContains)
    case Some(s) => Select(Named(store, nameContains), d => HasStatus(d, s))
  }

  predicate IsFound(d: Device, nameContains: Option<string>, status: Option<string>) {
    (nameContains.Some? ==> NameContains(d, nameContains.value)) && (status.Some? ==> HasStatus(d, status.value))
  }

  /** A search finds exactly the devices that pass both filters, each once and in order of id. */
  lemma SearchFindsExactly(store: Store, nameContains: Option<string>, status: Option<string>)
    requires Consistent(store)
    ensures var found := Found(store, nameContains, status);
      && SortedById(found)
      && forall d :: d in found <==>
           d.id in store.devices && store.devices[d.id] == d && IsFound(d, nameContains, status)
  {
    ListIsSorted(store);
    if nameContains.Some? { SelectIsFilter(ListDevices(store), d => NameContains(d, nameContains.value)); }
    if status.Some? { SelectIsFilter(Named(store, nameContains), d => HasStatus(d, status.value)); }
  }

  /** `part in s` for texts: the part stands somewhere in s. */
  lemma {:induction false} ContainsMeans(s: string, part: string)
    ensures Contains(s, part) <==> exists i :: StandsAt(s, part, i)
  {
    if |part| <= |s| && s[..|part|] == part {
      assert StandsAt(s, part, 0);
    } else if s != "" {
      ContainsMeans(s[1..], part);
      forall i: nat ensures StandsAt(s[1..], part, i) <==> StandsAt(s, part, i + 1) {
        if i + 1 + |part| <= |s| { assert s[1..][i..i + |part|] == s[i + 1..i + 1 + |part|]; }
      }
      if i: nat :| StandsAt(s, part, i) {
        assert i != 0;
        assert StandsAt(s[1..], part, i - 1);
      }
    }
  }

  predicate StandsAt(s: string, part: string, i: nat) { i + |part| <= |s| && s[i..i + |part|] == part }

  function HandleSearch(store: Store, nameContains: Option<string>, status: Option<string>): Answer {
    if status.Some? && ParseStatus(status.value).None? then Invalid()
    else Fine(200, DeviceList(Found(store, nameContains, status)))
  }

  function HandleGet(store: Store, id: string): Answer {
    match ParseInt(id)
    case None => Invalid()
    case Some(n) => if n in store.devices then Fine(200, DeviceJson(store.devices[n])) else NoDevice(n)
  }

  function HandleReplace(store: Store, id: string, body: Body): (Store, Answer) {
    if body == Garbled then (store, NotJson())
    else if ParseInt(id).None? || body == NoBody || ValidUpdate(body.json).None? then (store, Invalid())
    else
      var n := ParseInt(id).value;
      var (name, status) := ValidUpdate(body.json).value;
      (Replaced(store, n, name, status),
       if n in store.devices then Fine(200, DeviceJson(Device(n, name, status))) else NoDevice(n))
  }

  function HandleDelete(store: Store, id: string): (Store, Answer) {
    match ParseInt(id)
    case None => (store, Invalid())
    case Some(n) => (Deleted(store, n), if n in store.devices then Answer(204, None, None) else NoDevice(n))
  }

  function HandleSetState(store: Store, id: string, body: Body): (Store, Answer) {
    if body == Garbled then (store, NotJson())
    else if ParseInt(id).None? || body == NoBody || ValidStatus(body.json).None? then (store, Invalid())
    else
      var n, target := ParseInt(id).value, ValidStatus(body.json).value;
      if n !in store.devices then (store, NoDevice(n))
      else if !IsLegalTransition(store.devices[n].status, target) then
        (store, IllegalTransition(store.devices[n].status, target))
      else (StatusSet(store, n, target), Fine(200, DeviceJson(StatusSet(store, n, target).devices[n])))
  }

  function Handle(store: Store, op: Operation): (Store, Answer) {
    match op
    case Health => (store, Fine(200, JObj(map["status" := JStr("ok")])))
    case List(limit, offset) => (store, HandleList(store, limit, offset))
    case Create(body) => HandleCreate(store, body)
    case Search(nameContains, status) => (store, HandleSearch(store, nameContains, status))
    case Get(id) => (store, HandleGet(store, id))
    case Replace(id, body) => HandleReplace(store, id, body)
    case Delete(id) => HandleDelete(store, id)
    case SetState(id, body) => HandleSetState(store, id, body)
  }

  /** Some route fits the path, whatever the method. */
  predicate KnownPath(path: string) {
    var ps := Split(path, '/');
    || IsTwo(ps, "", "health")
    || IsTwo(ps, "", "devices")
    || HasThird(ps, "", "devices")
    || HasThirdAnd(ps, "", "devices", "status")
  }

  /** What the service does with a request; one that no route fits is answered 405 or 404. */
  function Serve(store: Store, r: Request): (Store, Answer) {
    match Route(r)
    case None => (store, if KnownPath(r.path) then Problem(405, "Method Not Allowed") else Problem(404, "Not Found"))
    case Some(op) => Handle(store, op)
  }

  // ----- on the wire -----

  /**
    The answer as the client sees it. `dumps` is the serializer; the type and the location are the
    only headers that matter here.
   */
  function ToResponse(dumps: Json -> string, answer: Answer, r: Request): HttpResponse {
    HttpResponse(
      answer.status,
      (if answer.body.Some? then map["content-type" := "application/json"] else map[])
      + (if answer.location.Some? then map["location" := answer.location.value] else map[]),
      if answer.body.Some? then dumps(answer.body.value) else "",
      r.httpMethod, r.path)
  }

  function Deliver(dumps: Json -> string, store: Store, r: Request): (Store, HttpResponse) {
    (Serve(store, r).0, ToResponse(dumps, Serve(store, r).1, r))
  }

  // ----- the handlers, as methods on the registry -----

  class Api {
    const registry: Registry

    constructor (registry: Registry)
      ensures this.registry == registry
    {
      this.registry := registry;
    }

    method CreateDevice(body: Body) returns (answer: Answer)
      modifies registry
      ensures (registry.Model(), answer) == HandleCreate(old(registry.Model()), body)
    {
      match body {
        case NoBody => answer := Invalid();
        case Garbled => answer := NotJson();
        case Payload(j) =>
          var payload := ValidCreate(j);
          if payload.None? {
            return Invalid();
          }
          var (name, status) := payload.value;
          if NameTaken(registry.Model(), name) {
            return NameExists(name);
          }
          var device := registry.CreateDevice(name, status);
          answer := Answer(201, Some(DeviceJson(device)), Some("/devices/" + IntText(device.id)));
      }
    }

    method ReplaceDevice(id: string, body: Body) returns (answer: Answer)
      modifies registry
      ensures (registry.Model(), answer) == HandleReplace(old(registry.Model()), id, body)
    {
      if body == Garbled {
        return NotJson();
      }
      if ParseInt(id).None? || body == NoBody || ValidUpdate(body.json).None? {
        return Invalid();
      }
      var n := ParseInt(id).value;
      var (name, status) := ValidUpdate(body.json).value;
      var device := registry.ReplaceDevice(n, name, status);
      answer := if device.None? then NoDevice(n) else Fine(200, DeviceJson(device.value));
    }

    method DeleteDevice(id: string) returns (answer: Answer)
      modifies registry
      ensures (registry.Model(), answer) == HandleDelete(old(registry.Model()), id)
    {
      var n := ParseInt(id);
      if n.None? {
        return Invalid();
      }
      var existed := registry.DeleteDevice(n.value);
      answer := if existed then Answer(204, None, None) else NoDevice(n.value);
    }

    method UpdateDeviceStatus(id: string, body: Body) returns (answer: Answer)
      modifies registry
      ensures (registry.Model(), answer) == HandleSetState(old(registry.Model()), id, body)
    {
      if body == Garbled {
        return NotJson();
      }
      if ParseInt(id).None? || body == NoBody || ValidStatus(body.json).None? {
        return Invalid();
      }
      var n, target := ParseInt(id).value, ValidStatus(body.json).value;
      if n !in registry.devices {
        return NoDevice(n);
      }
      if !IsLegalTransition(registry.devices[n].status, target) {
        return IllegalTransition(registry.devices[n].status, target);
      }
      var updated := registry.SetStatus(n, target);
      answer := Fine(200, DeviceJson(updated.value));
    }

    method GetDevice(id: string) returns (answer: Answer)
      ensures answer == HandleGet(registry.Model(), id)
    {
      var n := ParseInt(id);
      if n.None? {
        return Invalid();
      }
      answer :=
        if n.value in registry.devices then Fine(200, DeviceJson(registry.devices[n.value])) else NoDevice(n.value);
    }

    /** `search_devices`: the list narrowed by one filter and then by the other. */
    method SearchDevices(nameContains: Option<string>, status: Option<string>) returns (answer: Answer)
      ensures answer == HandleSearch(registry.Model(), nameContains, status)
    {
      if status.Some? && ParseStatus(status.value).None? {
        return Invalid();
      }
      var results := ListDevices(registry.Model());
      if nameContains.Some? {
        results := Select(results, d => NameContains(d, nameContains.value));
      }
      if status.Some? {
        results := Select(results, d => HasStatus(d, status.value));
      }
      answer := Fine(200, DeviceList(results));
    }

    /** One page of devices, and how many there are in all. */
    method ListPage(limit: Option<string>, offset: Option<string>) returns (answer: Answer)
      ensures answer == HandleList(registry.Model(), limit, offset)
    {
      var l := IntParam(limit, 50, 1, Some(100));
      var o := IntParam(offset, 0, 0, None);
      if l.None? || o.None? || l.value < 1 || o.value < 0 {
        return Invalid();
      }
      var items, total := registry.Page(l.value, o.value);
      answer := Fine(200, PageJson(items, total, l.value, o.value));
    }

    /** The handlers that only look. */
    method Look(op: Operation) returns (answer: Answer)
      requires op.Health? || op.List? || op.Search? || op.Get?
      ensures (registry.Model(), answer) == Handle(registry.Model(), op)
    {
      match op {
        case Health => answer := Fine(200, JObj(map["status" := JStr("ok")]));
        case List(limit, offset) => answer := ListPage(limit, offset);
        case Search(nameContains, status) => answer := SearchDevices(nameContains, status);
        case Get(id) => answer := GetDevice(id);
      }
    }

    /** The handler of an operation. */
    method Perform(op: Operation) returns (answer: Answer)
      modifies registry
      ensures (registry.Model(), answer) == Handle(old(registry.Model()), op)
    {
      match op {
        case Create(body) => answer := CreateDevice(body);
        case Replace(id, body) => answer := ReplaceDevice(id, body);
        case Delete(id) => answer := DeleteDevice(id);
        case SetState(id, body) => answer := UpdateDeviceStatus(id, body);
        case _ => answer := Look(op);
      }
    }

    /** The application: routing, and then the handler. */
    method Call(r: Request) returns (answer: Answer)
      modifies registry
      ensures (registry.Model(), answer) == Serve(old(registry.Model()), r)
    {
      var op := Route(r);
      if op.None? {
        return if KnownPath(r.path) then Problem(405, "Method Not Allowed") else Problem(404, "Not Found");
      }
      answer := Perform(op.value);
    }
  }

  // ----- what every run keeps -----

  /** The store after a list of requests. */
  function StoreAfter(store: Store, requests: seq<Request>): Store {
    if requests == [] then store else Serve(StoreAfter(store, requests[..|requests| - 1]), requests[|requests| - 1]).0
  }

  predicate Good(store: Store) { Consistent(store) && NamesFit(store) }

  /** What a request may do to the devices: no id comes back, and the counter never goes down. */
  ghost predicate Succeeds(before: Store, after: Store) {
    && Good(after) && after.nextId >= before.nextId
    && forall id | id in after.devices :: id in before.devices || id == before.nextId
  }

  lemma CreateKeepsGood(store: Store, body: Body)
    requires Good(store)
    ensures Succeeds(store, HandleCreate(store, body).0)
  {
  }

  lemma ReplaceKeepsGood(store: Store, id: string, body: Body)
    requires Good(store)
    ensures Succeeds(store, HandleReplace(store, id, body).0)
  {
  }

  lemma SetStateKeepsGood(store: Store, id: string, body: Body)
    requires Good(store)
    ensures Succeeds(store, HandleSetState(store, id, body).0)
  {
  }

  /** One request keeps ids consistent and names in bounds, and never lowers the id counter. */
  lemma ServeKeepsGood(store: Store, r: Request)
    requires Good(store)
    ensures Succeeds(store, Serve(store, r).0)
  {
    match Route(r)
    case Some(Create(body)) => CreateKeepsGood(store, body);
    case Some(Replace(id, body)) => ReplaceKeepsGood(store, id, body);
    case Some(SetState(id, body)) => SetStateKeepsGood(store, id, body);
    case _ =>
  }

  lemma {:induction false} EveryRunIsGood(requests: seq<Request>)
    ensures Good(StoreAfter(Seeded(), requests))
  {
    if requests != [] {
      EveryRunIsGood(requests[..|requests| - 1]);
      ServeKeepsGood(StoreAfter(Seeded(), requests[..|requests| - 1]), requests[|requests| - 1]);
    }
  }

  /** An id that was issued and is gone stays gone. */
  lemma {:induction false} GoneStaysGone(store: Store, id: int, requests: seq<Request>)
    requires Good(store) && id < store.nextId && id !in store.devices
    ensures Good(StoreAfter(store, requests)) && StoreAfter(store, requests).nextId >= store.nextId
    ensures id !in StoreAfter(store, requests).devices
  {
    if requests != [] {
      var init := requests[..|requests| - 1];
      GoneStaysGone(store, id, init);
      ServeKeepsGood(StoreAfter(store, init), requests[|requests| - 1]);
    }
  }

  lemma DeleteRemoves(store: Store, gone: Request, id: string)
    requires Good(store) && Route(gone) == Some(Delete(id))
    requires ParseInt(id).Some? && ParseInt(id).value in store.devices
    ensures Serve(store, gone).0 == Deleted(store, ParseInt(id).value)
  {
  }

  lemma AbsentAnswers404(store: Store, later: Request, id: string)
    requires Route(later) == Some(Get(id))
    requires ParseInt(id).Some? && ParseInt(id).value !in store.devices
    ensures Serve(store, later).1.status == 404
  {
  }

  /** After a device is deleted, its id answers 404 for the rest of the run. */
  lemma DeletedAnswers404(before: seq<Request>, gone: Request, after: seq<Request>, later: Request, id: string)
    requires ParseInt(id).Some? && ParseInt(id).value in StoreAfter(Seeded(), before).devices
    requires Route(gone) == Some(Delete(id)) && Route(later) == Some(Get(id))
    ensures var deleted := Serve(StoreAfter(Seeded(), before), gone).0;
            Serve(StoreAfter(deleted, after), later).1.status == 404
  {
    var store := StoreAfter(Seeded(), before);
    EveryRunIsGood(before);
    ServeKeepsGood(store, gone);
    DeleteRemoves(store, gone, id);
    GoneStaysGone(Serve(store, gone).0, ParseInt(id).value, after);
    AbsentAnswers404(StoreAfter(Serve(store, gone).0, after), later, id);
  }

  predicate IsPut(r: Request) { Route(r).Some? && Route(r).value.Replace? }

  /** Names stay distinct, no device is renamed, and every status change is a legal transition. */
  ghost predicate MovesLegally(before: Store, after: Store) {
    && DistinctNames(after)
    && forall id | id in before.devices && id in after.devices ::
         && after.devices[id].name == before.devices[id].name
         && IsLegalTransition(before.devices[id].status, after.devices[id].status)
  }

  lemma CreateMovesLegally(store: Store, body: Body)
    requires Good(store) && DistinctNames(store)
    ensures MovesLegally(store, HandleCreate(store, body).0)
  {
  }

  lemma SetStateMovesLegally(store: Store, id: string, body: Body)
    requires Good(store) && DistinctNames(store)
    ensures MovesLegally(store, HandleSetState(store, id, body).0)
  {
  }

  /** A request that writes no device. */
  predicate IsQuiet(r: Request) {
    Route(r).Some? ==> !Route(r).value.Create? && !Route(r).value.Replace? && !Route(r).value.SetState?
  }

  lemma QuietOnlyDeletes(store: Store, r: Request)
    requires IsQuiet(r)
    ensures Serve(store, r).0 == store || exists id :: Serve(store, r).0 == Deleted(store, id)
  {
    match Route(r)
    case Some(Delete(id)) =>
      if ParseInt(id).Some? { assert Serve(store, r).0 == Deleted(store, ParseInt(id).value); }
    case _ =>
  }

  lemma DeletingMovesLegally(store: Store, id: int)
    requires DistinctNames(store)
    ensures MovesLegally(store, store) && MovesLegally(store, Deleted(store, id))
  {
  }

  lemma ServeKeepsNamesAndTransitions(store: Store, r: Request)
    requires Good(store) && DistinctNames(store) && !IsPut(r)
    ensures MovesLegally(store, Serve(store, r).0)
  {
    if IsQuiet(r) {
      QuietOnlyDeletes(store, r);
      DeletingMovesLegally(store, 0);
      if id :| Serve(store, r).0 == Deleted(store, id) { DeletingMovesLegally(store, id); }
    } else {
      match Route(r)
      case Some(Create(body)) => CreateMovesLegally(store, body);
      case Some(SetState(id, body)) => SetStateMovesLegally(store, id, body);
    }
  }

  /** Along a run without PUT every step moves legally, so names are distinct throughout. */
  lemma {:induction false} PutFreeRunsMoveLegally(requests: seq<Request>)
    requires forall i | 0 <= i < |requests| :: !IsPut(requests[i])
    ensures DistinctNames(StoreAfter(Seeded(), requests))
    ensures forall i | 0 < i <= |requests| ::
      MovesLegally(StoreAfter(Seeded(), requests[..i - 1]), StoreAfter(Seeded(), requests[..i]))
  {
    if requests != [] {
      var init := requests[..|requests| - 1];
      PutFreeRunsMoveLegally(init);
      EveryRunIsGood(init);
      ServeKeepsNamesAndTransitions(StoreAfter(Seeded(), init), requests[|requests| - 1]);
      forall i | 0 < i <= |requests|
        ensures MovesLegally(StoreAfter(Seeded(), requests[..i - 1]), StoreAfter(Seeded(), requests[..i]))
      {
        if i < |requests| {
          assert init[..i] == requests[..i] && init[..i - 1] == requests[..i - 1];
        } else {
          assert requests[..i] == requests;
        }
      }
    }
  }

  // ----- what PUT can do -----

  /** The device that a request overwrites, with its new name and status: a valid PUT on an id that exists. */
  function PutOf(store: Store, r: Request): Option<Device> {
    match Route(r)
    case Some(Replace(id, Payload(j))) =>
      if ParseInt(id).Some? && ParseInt(id).value in store.devices && ValidUpdate(j).Some?
      then Some(Device(ParseInt(id).value, ValidUpdate(j).value.0, ValidUpdate(j).value.1))
      else None
    case _ => None
  }

  /** The check that PUT does not make: no other device has the name. */
  predicate PutKeepsNames(store: Store, r: Request) {
    PutOf(store, r).Some? ==>
      forall d | d in store.devices && d != PutOf(store, r).value.id ::
        store.devices[d].name != PutOf(store, r).value.name
  }

  /** The other check that PUT does not make: the table allows the new status. */
  predicate PutMovesLegally(store: Store, r: Request) {
    var put := PutOf(store, r);
    put.Some? && put.value.id in store.devices ==>
      IsLegalTransition(store.devices[put.value.id].status, put.value.status)
  }

  ghost predicate StatusesMoveLegally(before: Store, after: Store) {
    forall id | id in before.devices && id in after.devices ::
      IsLegalTransition(before.devices[id].status, after.devices[id].status)
  }

  lemma PutOverwrites(store: Store, r: Request)
    requires IsPut(r)
    ensures Serve(store, r).0 == match PutOf(store, r)
                                 case None => store
                                 case Some(d) => Replaced(store, d.id, d.name, d.status)
    ensures PutOf(store, r).Some? ==> PutOf(store, r).value.id in store.devices
  {
  }

  lemma OverwritingNames(store: Store, d: Device)
    requires DistinctNames(store) && d.id in store.devices
    ensures DistinctNames(Replaced(store, d.id, d.name, d.status))
            <==> forall id | id in store.devices && id != d.id :: store.devices[id].name != d.name
  {
    var after := Replaced(store, d.id, d.name, d.status);
    if DistinctNames(after) {
      forall id | id in store.devices && id != d.id ensures store.devices[id].name != d.name {
        assert after.devices[id].name != after.devices[d.id].name;
      }
    }
  }

  lemma OverwritingStatus(store: Store, d: Device)
    requires d.id in store.devices
    ensures StatusesMoveLegally(store, Replaced(store, d.id, d.name, d.status))
            <==> IsLegalTransition(store.devices[d.id].status, d.status)
  {
    var after := Replaced(store, d.id, d.name, d.status);
    assert after.devices[d.id].status == d.status;
  }

  /** One request keeps names distinct, and moves statuses legally, exactly when a PUT would pass the check. */
  lemma ServeKeepsIff(store: Store, r: Request)
    requires Good(store)
    ensures DistinctNames(store) ==> (DistinctNames(Serve(store, r).0) <==> PutKeepsNames(store, r))
    ensures StatusesMoveLegally(store, Serve(store, r).0) <==> PutMovesLegally(store, r)
  {
    if IsPut(r) {
      PutOverwrites(store, r);
      if PutOf(store, r).Some? {
        OverwritingStatus(store, PutOf(store, r).value);
        if DistinctNames(store) { OverwritingNames(store, PutOf(store, r).value); }
      }
    } else {
      if DistinctNames(store) { ServeKeepsNamesAndTransitions(store, r); }
      OthersMoveLegally(store, r);
    }
  }

  lemma OthersMoveLegally(store: Store, r: Request)
    requires Good(store) && !IsPut(r)
    ensures StatusesMoveLegally(store, Serve(store, r).0)
  {
    if IsQuiet(r) {
      QuietOnlyDeletes(store, r);
    } else {
      match Route(r)
      case Some(Create(body)) => CreateMovesStatuses(store, body);
      case Some(SetState(id, body)) => SetStateMovesStatuses(store, id, body);
    }
  }

  lemma CreateMovesStatuses(store: Store, body: Body)
    requires Good(store)
    ensures StatusesMoveLegally(store, HandleCreate(store, body).0)
  {
  }

  lemma SetStateMovesStatuses(store: Store, id: string, body: Body)
    requires Good(store)
    ensures StatusesMoveLegally(store, HandleSetState(store, id, body).0)
  {
  }

  /** The store before the request number i of a run. */
  function Before(requests: seq<Request>, i: nat): Store
    requires i <= |requests|
  {
    StoreAfter(Seeded(), requests[..i])
  }

  lemma OneStep(requests: seq<Request>, i: nat)
    requires i < |requests|
    ensures Before(requests, i + 1) == Serve(Before(requests, i), requests[i]).0 && Good(Before(requests, i))
  {
    assert requests[..i + 1][..i] == requests[..i];
    EveryRunIsGood(requests[..i]);
  }

  lemma NamesStep(requests: seq<Request>, i: nat)
    requires i < |requests|
    ensures DistinctNames(Before(requests, i)) ==>
      (DistinctNames(Before(requests, i + 1)) <==> PutKeepsNames(Before(requests, i), requests[i]))
  {
    OneStep(requests, i);
    ServeKeepsIff(Before(requests, i), requests[i]);
  }

  /** Along any run names stay distinct exactly when every PUT keeps them so. */
  lemma NamesStayDistinctIff(requests: seq<Request>)
    ensures (forall i | 0 <= i <= |requests| :: DistinctNames(Before(requests, i)))
            <==> forall i | 0 <= i < |requests| :: PutKeepsNames(Before(requests, i), requests[i])
  {
    forall i | 0 <= i < |requests|
      ensures DistinctNames(Before(requests, i)) ==>
        (DistinctNames(Before(requests, i + 1)) <==> PutKeepsNames(Before(requests, i), requests[i]))
    {
      NamesStep(requests, i);
    }
    assert DistinctNames(Before(requests, 0));
    if forall i | 0 <= i < |requests| :: PutKeepsNames(Before(requests, i), requests[i]) {
      forall i | 0 <= i <= |requests| ensures DistinctNames(Before(requests, i)) { DistinctUpTo(requests, i); }
    } else {
      var i :| 0 <= i < |requests| && !PutKeepsNames(Before(requests, i), requests[i]);
      assert !(DistinctNames(Before(requests, i)) && DistinctNames(Before(requests, i + 1)));
    }
  }

  ghost predicate AllPutsKeepNames(requests: seq<Request>) {
    forall j | 0 <= j < |requests| :: PutKeepsNames(Before(requests, j), requests[j])
  }

  lemma {:induction false} DistinctUpTo(requests: seq<Request>, i: nat)
    requires i <= |requests| && AllPutsKeepNames(requests)
    ensures DistinctNames(Before(requests, i))
  {
    if i > 0 {
      DistinctUpTo(requests, i - 1);
      NamesStep(requests, i - 1);
    }
  }

  /** Along any run every change of status is a legal transition exactly when every PUT makes a legal one. */
  lemma TransitionsAreLegalIff(requests: seq<Request>)
    ensures (forall i | 0 <= i < |requests| :: StatusesMoveLegally(Before(requests, i), Before(requests, i + 1)))
            <==> forall i | 0 <= i < |requests| :: PutMovesLegally(Before(requests, i), requests[i])
  {
    forall i | 0 <= i < |requests|
      ensures StatusesMoveLegally(Before(requests, i), Before(requests, i + 1))
              <==> PutMovesLegally(Before(requests, i), requests[i])
    {
      OneStep(requests, i);
      ServeKeepsIff(Before(requests, i), requests[i]);
    }
    if j :| 0 <= j < |requests| && !PutMovesLegally(Before(requests, j), requests[j]) {
      assert !StatusesMoveLegally(Before(requests, j), Before(requests, j + 1));
    }
  }

  /** PUT checks neither: it can give two devices one name, and jump to any status. */
  lemma PutChecksNeither(r: Request)
    requires Route(r)
             == Some(Replace("2", Payload(JObj(map["name" := JStr("edge-router-01"), "status" := JStr("degraded")]))))
    ensures var next := Serve(Seeded(), r).0;
      && !DistinctNames(next)
      && !IsLegalTransition(Seeded().devices[2].status, next.devices[2].status)
  {
    assert ParseInt("2") == Some(2) by {
      assert "2"[..0] == "";
      assert DigitsValue("2") == 10 * DigitsValue("") + 2;
    }
    assert |"edge-router-01"| == 14;
    var next := Serve(Seeded(), r).0;
    assert next.devices[1].name == next.devices[2].name;
  }
}
