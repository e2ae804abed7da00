/**
  What the service answers and does, request by request, in the request's own texts: api/main.py,
  api/models.py, api/errors.py and api/store.py as a client sees them.
 */
module Answers {
  import opened Json
  import opened Text
  import opened Plan
  import opened Store
  import opened Service

  // ----- the shapes of answers -----

  /** An error in the one shape that errors have. */
  ghost predicate IsRefusal(a: Answer, status: nat, code: string) {
    exists message :: a == Answer(status, Some(Refusal(code, message)), None)
  }

  function Refusal(code: string, message: string): Json {
    JObj(map["error" := JObj(map["code" := JStr(code), "message" := JStr(message)])])
  }

  /** A device with these three members. */
  function Document(id: int, name: string, word: string): Json {
    JObj(map["id" := JInt(id), "name" := JStr(name), "status" := JStr(word)])
  }

  predicate IsWord(w: string) { w == "online" || w == "offline" || w == "degraded" }

  /** The word for a stored status. */
  predicate Says(w: string, s: Status) {
    || (w == "online" && s == Online)
    || (w == "offline" && s == Offline)
    || (w == "degraded" && s == Degraded)
  }

  /** A change of status that the table of api/store.py allows, and staying put. */
  predicate MayMove(from: string, to: string) {
    || from == to
    || (from == "offline" && to == "online")
    || (from == "online" && (to == "degraded" || to == "offline"))
    || (from == "degraded" && (to == "online" || to == "offline"))
  }

  lemma RefusalCodes(message: string)
    ensures IsRefusal(Problem(400, message), 400, "bad_request")
    ensures IsRefusal(Problem(404, message), 404, "not_found")
    ensures IsRefusal(Problem(405, message), 405, "method_not_allowed")
    ensures IsRefusal(Problem(409, message), 409, "conflict")
    ensures IsRefusal(Problem(422, message), 422, "validation_error")
    ensures IsRefusal(Problem(500, message), 500, "internal_error")
  {
    assert Problem(400, message) == Answer(400, Some(Refusal("bad_request", message)), None);
    assert Problem(404, message) == Answer(404, Some(Refusal("not_found", message)), None);
    assert Problem(405, message) == Answer(405, Some(Refusal("method_not_allowed", message)), None);
    assert Problem(409, message) == Answer(409, Some(Refusal("conflict", message)), None);
    assert Problem(422, message) == Answer(422, Some(Refusal("validation_error", message)), None);
    assert Problem(500, message) == Answer(500, Some(Refusal("internal_error", message)), None);
  }

  lemma StatusWords(w: string, s: Status)
    ensures ParseStatus(w) == Some(s) <==> Says(w, s)
    ensures ParseStatus(w).Some? <==> IsWord(w)
    ensures StatusText(s) == w <==> Says(w, s)
  {
  }

  lemma MovesByWord(from: string, to: string, f: Status, t: Status)
    requires Says(from, f) && Says(to, t)
    ensures IsLegalTransition(f, t) <==> MayMove(from, to)
  {
  }

  // ----- paths -----

  /** A path segment. */
  predicate IsSegment(s: string) { s != "" && '/' !in s }

  lemma ThreeSegments(path: string, a: string, b: string, c: string)
    requires '/' !in a && '/' !in b && '/' !in c && path == a + ['/'] + (b + ['/'] + c)
    ensures Split(path, '/') == [a, b, c]
  {
    SplitAtSeparator(a, b + ['/'] + c, '/');
    SplitAtSeparator(b, c, '/');
    SplitAtSeparator(c, "", '/');
  }

  lemma FourSegments(path: string, a: string, b: string, c: string, d: string)
    requires '/' !in a && '/' !in b && '/' !in c && '/' !in d
    requires path == a + ['/'] + (b + ['/'] + (c + ['/'] + d))
    ensures Split(path, '/') == [a, b, c, d]
  {
    SplitAtSeparator(a, b + ['/'] + (c + ['/'] + d), '/');
    ThreeSegments(b + ['/'] + (c + ['/'] + d), b, c, d);
  }

  lemma DetailPath(path: string, id: string)
    requires path == "/devices/" + id && IsSegment(id)
    ensures Split(path, '/') == ["", "devices", id]
  {
    assert path == "" + ['/'] + ("devices" + ['/'] + id);
    ThreeSegments(path, "", "devices", id);
  }

  lemma StatePath(path: string, id: string)
    requires path == "/devices/" + id + "/status" && IsSegment(id)
    ensures Split(path, '/') == ["", "devices", id, "status"]
  {
    assert path == "" + ['/'] + ("devices" + ['/'] + (id + ['/'] + "status"));
    FourSegments(path, "", "devices", id, "status");
  }

  // ----- GET /devices/<id> -----

  predicate IsGet(r: Request, id: string) {
    r.httpMethod == "GET" && r.path == "/devices/" + id && IsSegment(id) && id != "search"
  }

  lemma GetIsRouted(r: Request, id: string)
    requires IsGet(r, id)
    ensures Route(r) == Some(Get(id))
  {
    DetailPath(r.path, id);
  }

  /** 422 for an id that is no number, 404 for one that is not there, else the device; nothing changes. */
  lemma GetAnswers(store: Store, r: Request, id: string, w: string)
    requires IsGet(r, id)
    ensures Serve(store, r).0 == store
    ensures ParseInt(id) == None ==> IsRefusal(Serve(store, r).1, 422, "validation_error")
    ensures ParseInt(id).Some? && ParseInt(id).value !in store.devices ==>
      IsRefusal(Serve(store, r).1, 404, "not_found")
    ensures ParseInt(id).Some? && ParseInt(id).value in store.devices ==>
      var d := store.devices[ParseInt(id).value];
      Says(w, d.status) <==> Serve(store, r).1 == Answer(200, Some(Document(d.id, d.name, w)), None)
  {
    GetIsRouted(r, id);
    RefusalCodes("Request validation failed");
    if ParseInt(id).Some? {
      var n := ParseInt(id).value;
      RefusalCodes("No device with id " + IntText(n));
      if n in store.devices { Shown(store.devices[n], w); }
    }
  }

  lemma Shown(d: Device, w: string)
    ensures DeviceJson(d) == Document(d.id, d.name, w) <==> Says(w, d.status)
  {
    StatusWords(w, d.status);
    if DeviceJson(d) == Document(d.id, d.name, w) { assert DeviceJson(d).m["status"] == JStr(w); }
  }

  /** No device but the one with this id is touched. */
  ghost predicate OnlyAt(before: Store, after: Store, id: int) {
    && after.nextId == before.nextId
    && forall other | other != id ::
         && (other in after.devices <==> other in before.devices)
         && (other in before.devices ==> after.devices[other] == before.devices[other])
  }

  // ----- PATCH /devices/<id>/status -----

  predicate IsPatch(r: Request, id: string) {
    r.httpMethod == "PATCH" && r.path == "/devices/" + id + "/status" && IsSegment(id)
  }

  lemma PatchIsRouted(r: Request, id: string)
    requires IsPatch(r, id)
    ensures Route(r) == Some(SetState(id, r.body))
  {
    StatePath(r.path, id);
  }

  /** The body asks for this status. */
  predicate AsksFor(body: Body, w: string) {
    body.Payload? && body.json.JObj? && "status" in body.json.m && body.json.m["status"] == JStr(w)
  }

  lemma AskedStatus(body: Body, w: string)
    ensures AsksFor(body, w) && IsWord(w) ==>
      body.Payload? && ValidStatus(body.json).Some? && Says(w, ValidStatus(body.json).value)
    ensures body.Payload? && ValidStatus(body.json).Some? ==> exists v :: AsksFor(body, v) && IsWord(v)
  {
    if AsksFor(body, w) && IsWord(w) {
      var t := ParseStatus(w);
      StatusWords(w, t.GetOr(Online));
    }
    if body.Payload? && ValidStatus(body.json).Some? {
      var v := body.json.m["status"].s;
      StatusWords(v, Online);
      assert AsksFor(body, v);
    }
  }

  /** Which PATCH is refused, and how: nothing changes then. */
  lemma PatchRefusals(store: Store, r: Request, id: string)
    requires IsPatch(r, id)
    ensures r.body == Garbled ==> Serve(store, r).0 == store && IsRefusal(Serve(store, r).1, 400, "bad_request")
    ensures r.body != Garbled && (ParseInt(id) == None || !exists w :: AsksFor(r.body, w) && IsWord(w)) ==>
      Serve(store, r).0 == store && IsRefusal(Serve(store, r).1, 422, "validation_error")
  {
    PatchIsRouted(r, id);
    AskedStatus(r.body, "");
    RefusalCodes("There was an error parsing the body");
    RefusalCodes("Request validation failed");
  }

  /**
    A PATCH that asks for a status by its word: 404 where there is no device, 409 where the table does
    not allow the move; else the device keeps id and name, has that status, and is answered with the
    word, now and to the next GET. Nothing else changes.
   */
  lemma PatchMoves(store: Store, r: Request, id: string, w: string, from: string, g: Request)
    requires IsPatch(r, id) && AsksFor(r.body, w) && IsWord(w) && ParseInt(id).Some?
    requires IsGet(g, id)
    ensures var n, after, answer := ParseInt(id).value, Serve(store, r).0, Serve(store, r).1;
      && OnlyAt(store, after, n)
      && (n !in store.devices ==> after == store && IsRefusal(answer, 404, "not_found"))
      && (n in store.devices && Says(from, store.devices[n].status) && !MayMove(from, w) ==>
            after == store && IsRefusal(answer, 409, "conflict"))
      && (n in store.devices && Says(from, store.devices[n].status) && MayMove(from, w) ==>
            && n in after.devices
            && after.devices[n].id == store.devices[n].id && after.devices[n].name == store.devices[n].name
            && Says(w, after.devices[n].status)
            && answer == Answer(200, Some(Document(store.devices[n].id, store.devices[n].name, w)), None)
            && Serve(after, g) == (after, answer))
  {
    var n := ParseInt(id).value;
    PatchIsRouted(r, id);
    AskedStatus(r.body, w);
    RefusalCodes("No device with id " + IntText(n));
    if n in store.devices && Says(from, store.devices[n].status) {
      var f, t := store.devices[n].status, ValidStatus(r.body.json).value;
      MovesByWord(from, w, f, t);
      RefusalCodes("Illegal transition: " + StatusText(f) + " -> " + StatusText(t));
      if MayMove(from, w) {
        Shown(StatusSet(store, n, t).devices[n], w);
        GetAnswers(StatusSet(store, n, t), g, id, w);
      }
    }
  }

  // ----- PUT and DELETE /devices/<id> -----

  predicate IsAt(r: Request, m: string, id: string) {
    r.httpMethod == m && r.path == "/devices/" + id && IsSegment(id)
  }

  lemma PutIsRouted(r: Request, id: string)
    requires IsAt(r, "PUT", id)
    ensures Route(r) == Some(Replace(id, r.body))
  {
    DetailPath(r.path, id);
  }

  lemma DeleteIsRouted(r: Request, id: string)
    requires IsAt(r, "DELETE", id)
    ensures Route(r) == Some(Delete(id))
  {
    DetailPath(r.path, id);
  }

  /** The body names this device, with a name of 1 to 64 characters. */
  predicate Names(body: Body, name: string) {
    && body.Payload? && body.json.JObj? && "name" in body.json.m && body.json.m["name"] == JStr(name)
    && 1 <= |name| <= 64
  }

  predicate SaysNothing(body: Body) { body.Payload? && body.json.JObj? && "status" !in body.json.m }

  lemma UpdateMeans(body: Body, name: string, w: string)
    ensures Names(body, name) && AsksFor(body, w) && IsWord(w) ==>
      ValidUpdate(body.json).Some? && ValidUpdate(body.json).value.0 == name && Says(w, ValidUpdate(body.json).value.1)
    ensures body.Payload? && ValidUpdate(body.json).Some? ==>
      exists t, v :: Names(body, t) && AsksFor(body, v) && IsWord(v)
  {
    if AsksFor(body, w) && IsWord(w) { StatusWords(w, ParseStatus(w).GetOr(Online)); }
    if body.Payload? && ValidUpdate(body.json).Some? {
      var t, v := body.json.m["name"].s, body.json.m["status"].s;
      StatusWords(v, Online);
      assert Names(body, t) && AsksFor(body, v);
    }
  }

  /** Which PUT is refused for its body or its id, and how: nothing changes then. */
  lemma PutRefusals(store: Store, r: Request, id: string)
    requires IsAt(r, "PUT", id)
    ensures r.body == Garbled ==> Serve(store, r).0 == store && IsRefusal(Serve(store, r).1, 400, "bad_request")
    ensures r.body != Garbled
            && (ParseInt(id) == None || !exists t, w :: Names(r.body, t) && AsksFor(r.body, w) && IsWord(w)) ==>
      Serve(store, r).0 == store && IsRefusal(Serve(store, r).1, 422, "validation_error")
  {
    PutIsRouted(r, id);
    UpdateMeans(r.body, "", "");
    RefusalCodes("There was an error parsing the body");
    RefusalCodes("Request validation failed");
  }

  /**
    A PUT with a name and a status: 404 where there is no device; else the device becomes just that,
    under its old id, and is answered so, now and to the next GET. Nothing else changes.
   */
  lemma PutReplaces(store: Store, r: Request, id: string, name: string, w: string, g: Request)
    requires IsAt(r, "PUT", id) && Names(r.body, name) && AsksFor(r.body, w) && IsWord(w) && ParseInt(id).Some?
    requires IsGet(g, id)
    ensures var n, after, answer := ParseInt(id).value, Serve(store, r).0, Serve(store, r).1;
      && OnlyAt(store, after, n)
      && (n !in store.devices ==> after == store && IsRefusal(answer, 404, "not_found"))
      && (n in store.devices ==>
            && n in after.devices && after.devices[n].id == n && after.devices[n].name == name
            && Says(w, after.devices[n].status)
            && answer == Answer(200, Some(Document(n, name, w)), None)
            && Serve(after, g) == (after, answer))
  {
    var n := ParseInt(id).value;
    PutIsRouted(r, id);
    UpdateMeans(r.body, name, w);
    RefusalCodes("No device with id " + IntText(n));
    if n in store.devices {
      var d := Device(n, name, ValidUpdate(r.body.json).value.1);
      Shown(d, w);
      GetAnswers(Replaced(store, n, d.name, d.status), g, id, w);
    }
  }

  /**
    DELETE: 422 for an id that is no number, 404 for one that is not there; else 204 without a body,
    and a GET afterwards is answered 404. Nothing else changes.
   */
  lemma DeleteRemovesIt(store: Store, r: Request, id: string, g: Request)
    requires IsAt(r, "DELETE", id) && IsGet(g, id)
    ensures ParseInt(id) == None ==>
      Serve(store, r).0 == store && IsRefusal(Serve(store, r).1, 422, "validation_error")
    ensures ParseInt(id).Some? ==>
      var n, after, answer := ParseInt(id).value, Serve(store, r).0, Serve(store, r).1;
      && OnlyAt(store, after, n) && n !in after.devices
      && (n !in store.devices ==> IsRefusal(answer, 404, "not_found"))
      && (n in store.devices ==> answer == Answer(204, None, None))
      && Serve(after, g).0 == after && IsRefusal(Serve(after, g).1, 404, "not_found")
  {
    DeleteIsRouted(r, id);
    RefusalCodes("Request validation failed");
    if ParseInt(id).Some? {
      RefusalCodes("No device with id " + IntText(ParseInt(id).value));
      GetAnswers(Deleted(store, ParseInt(id).value), g, id, "");
    }
  }

  // ----- POST /devices -----

  predicate IsPost(r: Request) { r.httpMethod == "POST" && r.path == "/devices" }

  lemma TwoSegments(path: string, name: string)
    requires path == ['/'] + name && '/' !in name
    ensures Split(path, '/') == ["", name]
  {
    assert path == "" + ['/'] + name;
    SplitAtSeparator("", name, '/');
    SplitAtSeparator(name, "", '/');
  }

  lemma PostIsRouted(r: Request)
    requires IsPost(r)
    ensures Route(r) == Some(Create(r.body))
  {
    TwoSegments(r.path, "devices");
  }

  /** The status that a creation comes to: the one asked for, or offline when none is. */
  predicate Starts(body: Body, w: string) { (AsksFor(body, w) && IsWord(w)) || (SaysNothing(body) && w == "offline") }

  lemma CreateMeans(body: Body, name: string, w: string)
    ensures Names(body, name) && Starts(body, w) ==>
      ValidCreate(body.json).Some? && ValidCreate(body.json).value.0 == name && Says(w, ValidCreate(body.json).value.1)
    ensures body.Payload? && ValidCreate(body.json).Some? ==> exists t, v :: Names(body, t) && Starts(body, v)
  {
    if AsksFor(body, w) && IsWord(w) { StatusWords(w, ParseStatus(w).GetOr(Online)); }
    if body.Payload? && ValidCreate(body.json).Some? {
      var t := body.json.m["name"].s;
      if SaysNothing(body) {
        assert Names(body, t) && Starts(body, "offline");
      } else {
        var v := body.json.m["status"].s;
        StatusWords(v, Online);
        assert Names(body, t) && Starts(body, v);
      }
    }
  }

  /** Which POST is refused for its body, and how: nothing changes then. */
  lemma PostRefusals(store: Store, r: Request)
    requires IsPost(r)
    ensures r.body == Garbled ==> Serve(store, r).0 == store && IsRefusal(Serve(store, r).1, 400, "bad_request")
    ensures r.body != Garbled && !(exists t, w :: Names(r.body, t) && Starts(r.body, w)) ==>
      Serve(store, r).0 == store && IsRefusal(Serve(store, r).1, 422, "validation_error")
  {
    PostIsRouted(r);
    CreateMeans(r.body, "", "");
    RefusalCodes("There was an error parsing the body");
    RefusalCodes("Request validation failed");
  }

  /**
    A POST with a name: 409 where a device has it; else there is one device more, under an id that was
    never used, with that name and the status asked for, or offline. It is answered so, and so is a GET
    where the Location points. No other device changes.
   */
  lemma PostCreates(store: Store, r: Request, name: string, w: string, g: Request)
    requires Good(store) && IsPost(r) && Names(r.body, name) && Starts(r.body, w)
    requires IsGet(g, IntText(store.nextId))
    ensures var n, after, answer := store.nextId, Serve(store, r).0, Serve(store, r).1;
      if exists id | id in store.devices :: store.devices[id].name == name then
        after == store && IsRefusal(answer, 409, "conflict")
      else
        && n !in store.devices && after.nextId == n + 1 && after.devices.Keys == store.devices.Keys + {n}
        && (forall id | id in store.devices :: after.devices[id] == store.devices[id])
        && after.devices[n].id == n && after.devices[n].name == name && Says(w, after.devices[n].status)
        && answer == Answer(201, Some(Document(n, name, w)), Some(g.path))
        && Serve(after, g) == (after, Answer(200, Some(Document(n, name, w)), None))
  {
    PostIsRouted(r);
    CreateMeans(r.body, name, w);
    RefusalCodes("A device named '" + name + "' already exists");
    if !NameTaken(store, name) {
      var n, s := store.nextId, ValidCreate(r.body.json).value.1;
      ParseDecimal(n);
      Shown(Device(n, name, s), w);
      GetAnswers(Created(store, name, s), g, IntText(n), w);
    }
  }

  // ----- GET /devices -----

  predicate IsList(r: Request) { r.httpMethod == "GET" && r.path == "/devices" }

  /** The parameter is absent and has this default, or is a text for this number. */
  predicate Asks(r: Request, name: string, default: int, n: int) {
    if name in r.params then ParseInt(r.params[name]) == Some(n) else n == default
  }

  predicate NoNumber(r: Request, name: string) { name in r.params && ParseInt(r.params[name]) == None }

  lemma ListIsRouted(r: Request)
    requires IsList(r)
    ensures Route(r) == Some(List(Param(r, "limit"), Param(r, "offset")))
  {
    TwoSegments(r.path, "devices");
  }

  /** 422 for a limit outside 1 to 100, an offset below 0, or what is no number. */
  lemma ListRefusals(store: Store, r: Request, l: int, o: int)
    requires IsList(r)
    requires || NoNumber(r, "limit") || NoNumber(r, "offset")
             || (Asks(r, "limit", 50, l) && !(1 <= l <= 100))
             || (Asks(r, "offset", 0, o) && o < 0)
    ensures Serve(store, r).0 == store && IsRefusal(Serve(store, r).1, 422, "validation_error")
  {
    ListIsRouted(r);
    RefusalCodes("Request validation failed");
  }

  ghost predicate ShowsIt(item: Json, d: Device) {
    exists w :: item == Document(d.id, d.name, w) && Says(w, d.status)
  }

  /** Each of these documents shows the device at its place. */
  ghost predicate Show(items: seq<Json>, ds: seq<Device>) {
    |items| == |ds| && forall i | 0 <= i < |ds| :: ShowsIt(items[i], ds[i])
  }

  lemma ListShows(ds: seq<Device>)
    ensures Show(DeviceList(ds).items, ds)
  {
    forall i | 0 <= i < |ds| ensures ShowsIt(DeviceList(ds).items[i], ds[i]) {
      var w := StatusText(ds[i].status);
      StatusWords(w, ds[i].status);
      Shown(ds[i], w);
      assert DeviceList(ds).items[i] == Document(ds[i].id, ds[i].name, w);
    }
  }

  lemma ListIsAnswered(store: Store, r: Request, l: nat, o: nat)
    requires IsList(r) && Asks(r, "limit", 50, l) && 1 <= l <= 100 && Asks(r, "offset", 0, o)
    ensures Serve(store, r)
            == (store, Fine(200, PageJson(Slice(ListDevices(store), o, l), |ListDevices(store)|, l, o)))
  {
    ListIsRouted(r);
    ParamIs(r, "limit", 50, 1, Some(100), l);
    ParamIs(r, "offset", 0, 0, None, o);
  }

  lemma ParamIs(r: Request, name: string, default: int, low: int, high: Option<int>, n: int)
    requires Asks(r, name, default, n) && low <= n && (high.Some? ==> n <= high.value)
    ensures IntParam(Param(r, name), default, low, high) == Some(n)
  {
  }

  /**
    A page: of all devices in order of id, those from `offset` on, `limit` of them at most, 50 from the
    first one unless asked otherwise; with the number of all devices, and limit and offset as applied.
   */
  lemma ListAnswers(store: Store, r: Request, l: int, o: int) returns (items: seq<Json>, ds: seq<Device>)
    requires Consistent(store) && IsList(r)
    requires Asks(r, "limit", 50, l) && 1 <= l <= 100 && Asks(r, "offset", 0, o) && o >= 0
    ensures SortedById(ds) && HoldsExactly(ds, store) && |ds| == |store.devices|
    ensures Show(items, if o >= |ds| then [] else if o + l >= |ds| then ds[o..] else ds[o..o + l])
    ensures Serve(store, r) == (store, Answer(200, Some(JObj(map[
              "items" := JArr(items), "total" := JInt(|store.devices|),
              "limit" := JInt(l), "offset" := JInt(o)])), None))
  {
    ListIsAnswered(store, r, l, o);
    ListIsSorted(store);
    ds := ListDevices(store);
    items := DeviceList(Slice(ds, o, l)).items;
    ListShows(Slice(ds, o, l));
  }

  // ----- GET /devices/search -----

  predicate IsSearch(r: Request) { r.httpMethod == "GET" && r.path == "/devices/search" }

  lemma SearchIsRouted(r: Request)
    requires IsSearch(r)
    ensures Route(r) == Some(Search(Param(r, "name_contains"), Param(r, "status")))
  {
    assert r.path == "" + ['/'] + ("devices" + ['/'] + "search");
    ThreeSegments(r.path, "", "devices", "search");
  }

  /** The part stands at position i of the text, in any case. */
  predicate AlikeAt(text: string, part: string, i: nat) {
    i + |part| <= |text| && forall j | 0 <= j < |part| :: SameLetter(text[i + j], part[j])
  }

  lemma StandsAlike(text: string, part: string, i: nat)
    ensures StandsAt(Lower(text), Lower(part), i) <==> AlikeAt(text, part, i)
  {
    LowerEach(text);
    LowerEach(part);
    if i + |part| <= |text| {
      var window := Lower(text)[i..i + |part|];
      forall j | 0 <= j < |part| ensures window[j] == Lower(part)[j] <==> SameLetter(text[i + j], part[j]) {
        assert window[j] == Lower(text)[i + j];
        LowerAlike(text[i + j], part[j]);
      }
      assert window == Lower(part) <==> forall j | 0 <= j < |part| :: window[j] == Lower(part)[j];
    }
  }

  /** The filter by name: the part stands somewhere in the name, in any case. */
  lemma NameFilter(d: Device, part: string)
    ensures NameContains(d, part) <==> exists i :: AlikeAt(d.name, part, i)
  {
    ContainsMeans(Lower(d.name), Lower(part));
    forall i: nat ensures StandsAt(Lower(d.name), Lower(part), i) <==> AlikeAt(d.name, part, i) {
      StandsAlike(d.name, part, i);
    }
  }

  /** A device passes the filters of the request. */
  ghost predicate Passes(d: Device, r: Request) {
    && ("name_contains" in r.params ==> exists i :: AlikeAt(d.name, r.params["name_contains"], i))
    && ("status" in r.params ==> Says(r.params["status"], d.status))
  }

  lemma PassesIsFound(d: Device, r: Request)
    ensures IsFound(d, Param(r, "name_contains"), Param(r, "status")) <==> Passes(d, r)
  {
    if "name_contains" in r.params { NameFilter(d, r.params["name_contains"]); }
    if "status" in r.params { StatusWords(r.params["status"], d.status); }
  }

  lemma FoundPasses(store: Store, r: Request)
    requires Consistent(store)
    ensures var found := Found(store, Param(r, "name_contains"), Param(r, "status"));
      && SortedById(found)
      && forall d :: d in found <==> d.id in store.devices && store.devices[d.id] == d && Passes(d, r)
  {
    SearchFindsExactly(store, Param(r, "name_contains"), Param(r, "status"));
    forall d ensures IsFound(d, Param(r, "name_contains"), Param(r, "status")) <==> Passes(d, r) {
      PassesIsFound(d, r);
    }
  }

  /** 422 for a status that is none of the three words; else all devices that pass, in order of id. */
  lemma SearchAnswers(store: Store, r: Request) returns (items: seq<Json>, ds: seq<Device>)
    requires Consistent(store) && IsSearch(r)
    ensures Serve(store, r).0 == store
    ensures "status" in r.params && !IsWord(r.params["status"]) ==>
      IsRefusal(Serve(store, r).1, 422, "validation_error")
    ensures SortedById(ds) && Show(items, ds)
    ensures forall d :: d in ds <==> d.id in store.devices && store.devices[d.id] == d && Passes(d, r)
    ensures "status" !in r.params || IsWord(r.params["status"]) ==>
      Serve(store, r).1 == Answer(200, Some(JArr(items)), None)
  {
    SearchIsRouted(r);
    RefusalCodes("Request validation failed");
    if "status" in r.params { StatusWords(r.params["status"], Online); }
    ds := Found(store, Param(r, "name_contains"), Param(r, "status"));
    items := DeviceList(ds).items;
    FoundPasses(store, r);
    ListShows(ds);
  }

  // ----- the rest -----

  lemma HealthAnswers(store: Store, r: Request)
    requires r.httpMethod == "GET" && r.path == "/health"
    ensures Serve(store, r) == (store, Answer(200, Some(JObj(map["status" := JStr("ok")])), None))
  {
    TwoSegments(r.path, "health");
  }

  /** Where no route takes the request: 405 if one takes the path with another method, else 404. */
  lemma UnroutedAnswers(store: Store, r: Request)
    requires Route(r) == None
    ensures Serve(store, r).0 == store
    ensures (exists m :: Route(r.(httpMethod := m)).Some?) ==>
      IsRefusal(Serve(store, r).1, 405, "method_not_allowed")
    ensures !(exists m :: Route(r.(httpMethod := m)).Some?) ==> IsRefusal(Serve(store, r).1, 404, "not_found")
  {
    RefusalCodes("Method Not Allowed");
    RefusalCodes("Not Found");
    KnownPathMeans(r);
  }

  lemma KnownPathMeans(r: Request)
    ensures KnownPath(r.path) <==> exists m :: Route(r.(httpMethod := m)).Some?
  {
    if KnownPath(r.path) {
      var ps := Split(r.path, '/');
      if HasThirdAnd(ps, "", "devices", "status") {
        assert Route(r.(httpMethod := "PATCH")).Some?;
      } else {
        assert Route(r.(httpMethod := "GET")).Some?;
      }
    }
  }

  /** The service starts with three devices. */
  lemma SeededAnswers(g: Request)
    ensures IsGet(g, "1") ==> Serve(Seeded(), g).1 == Answer(200, Some(Document(1, "edge-router-01", "online")), None)
    ensures IsGet(g, "2") ==> Serve(Seeded(), g).1 == Answer(200, Some(Document(2, "edge-router-02", "offline")), None)
    ensures IsGet(g, "3") ==>
      Serve(Seeded(), g).1 == Answer(200, Some(Document(3, "sensor-gateway-01", "degraded")), None)
  {
    OneDigit("1", 1);
    OneDigit("2", 2);
    OneDigit("3", 3);
    if IsGet(g, "1") { GetAnswers(Seeded(), g, "1", "online"); }
    if IsGet(g, "2") { GetAnswers(Seeded(), g, "2", "offline"); }
    if IsGet(g, "3") { GetAnswers(Seeded(), g, "3", "degraded"); }
  }

  lemma OneDigit(t: string, n: nat)
    requires n < 10 && t == [Digit(n)]
    ensures ParseInt(t) == Some(n)
  {
    ParseDecimal(n);
  }

  lemma SeededInOrder(ds: seq<Device>)
    requires SortedById(ds) && HoldsExactly(ds, Seeded()) && |ds| == 3
    ensures ds == [Device(1, "edge-router-01", Online), Device(2, "edge-router-02", Offline),
                   Device(3, "sensor-gateway-01", Degraded)]
  {
    assert ds[0] in ds && ds[1] in ds && ds[2] in ds;
    assert ds[0].id < ds[1].id < ds[2].id;
  }

  lemma ShownAs(item: Json, d: Device, w: string)
    requires ShowsIt(item, d) && Says(w, d.status)
    ensures item == Document(d.id, d.name, w)
  {
  }

  /** And lists them, when nothing else is asked, as the whole of its first page of 50. */
  lemma SeededPage(r: Request)
    requires IsList(r) && "limit" !in r.params && "offset" !in r.params
    ensures Serve(Seeded(), r).1 == Answer(200, Some(JObj(map[
              "items" := JArr([Document(1, "edge-router-01", "online"), Document(2, "edge-router-02", "offline"),
                               Document(3, "sensor-gateway-01", "degraded")]),
              "total" := JInt(3), "limit" := JInt(50), "offset" := JInt(0)])), None)
  {
    var items, ds := ListAnswers(Seeded(), r, 50, 0);
    ThreeAreSeeded();
    assert ds[0..] == ds;
    ThreeShown(items, ds);
  }

  lemma ThreeAreSeeded()
    ensures |Seeded().devices| == 3
  {
    assert Seeded().devices.Keys == {1, 2, 3};
  }

  lemma ThreeShown(items: seq<Json>, ds: seq<Device>)
    requires SortedById(ds) && HoldsExactly(ds, Seeded()) && |ds| == 3 && Show(items, ds)
    ensures items == [Document(1, "edge-router-01", "online"), Document(2, "edge-router-02", "offline"),
                      Document(3, "sensor-gateway-01", "degraded")]
  {
    SeededInOrder(ds);
    ShownAs(items[0], ds[0], "online");
    ShownAs(items[1], ds[1], "offline");
    ShownAs(items[2], ds[2], "degraded");
    assert items == [items[0], items[1], items[2]];
  }
}
