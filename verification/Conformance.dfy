/**
  The healthy service keeps its contract: whatever it answers to a declared operation is declared,
  of the declared media type, and valid under the declared schema.
 */
module Conformance {
  import opened Json
  import opened Text
  import opened JsonText
  import opened JsonPrint
  import opened Plan
  import opened Paths
  import opened Resolver
  import opened Schema
  import opened Validator
  import opened Store
  import opened Service
  import C = DeviceContract
  import opened Routing

  // ----- what objects of the contract's kind accept -----

  /** None of the keywords but these three. */
  predicate ObjectLike(s: map<string, Json>, required: seq<string>, properties: map<string, Json>) {
    && "type" in s && s["type"] == JStr("object")
    && "required" in s && s["required"] == C.Strings(required)
    && "properties" in s && s["properties"] == JObj(properties)
    && Lacks(s, ["$ref", "enum", "minLength", "maxLength", "minimum", "maximum"])
    && Lacks(s, ["additionalProperties", "items", "anyOf"])
  }

  predicate Lacks(s: map<string, Json>, keys: seq<string>) { forall i | 0 <= i < |keys| :: keys[i] !in s }

  lemma ObjectKeys(required: seq<string>, properties: map<string, Json>)
    ensures ObjectLike(C.ObjectSchema(required, properties).m, required, properties)
  {
  }

  lemma LacksMost(s: map<string, Json>)
    requires Lacks(s, ["$ref", "enum", "minLength", "maxLength", "minimum", "maximum"])
    requires Lacks(s, ["additionalProperties", "items", "anyOf"])
    ensures "$ref" !in s && "enum" !in s && "minLength" !in s && "maxLength" !in s && "minimum" !in s && "maximum" !in s
    ensures "additionalProperties" !in s && "items" !in s && "anyOf" !in s
  {
    var a := ["$ref", "enum", "minLength", "maxLength", "minimum", "maximum"];
    var b := ["additionalProperties", "items", "anyOf"];
    assert a[0] !in s && a[1] !in s && a[2] !in s && a[3] !in s && a[4] !in s && a[5] !in s;
    assert b[0] !in s && b[1] !in s && b[2] !in s;
  }

  lemma RequiredOnly(s: map<string, Json>, required: seq<string>, m: map<string, Json>)
    requires "required" in s && s["required"] == C.Strings(required)
    ensures MissingNames(s, JObj(m)) == set i | 0 <= i < |required| && required[i] !in m :: required[i]
  {
    var names := s["required"].items;
    assert forall i | 0 <= i < |required| :: names[i] == JStr(required[i]);
    forall name
      ensures name in MissingNames(s, JObj(m))
              <==> exists i | 0 <= i < |required| && required[i] !in m :: required[i] == name
    {
      if name in MissingNames(s, JObj(m)) {
        var i :| 0 <= i < |names| && names[i].JStr? && names[i].s !in m && names[i].s == name;
        assert required[i] == name;
      }
      if i :| 0 <= i < |required| && required[i] !in m && required[i] == name {
        assert names[i].s == name;
      }
    }
  }

  function MissingErrors(required: seq<string>, m: map<string, Json>, path: Path): set<SchemaError> {
    set i | 0 <= i < |required| && required[i] !in m :: SchemaError(path, "required", required[i])
  }

  function MemberErrors(properties: map<string, Json>, m: map<string, Json>, path: Path): set<SchemaError> {
    set k, e | k in properties && k in m && e in Errors(properties[k], m[k], path + [Key(k)]) :: e
  }

  lemma ObjectLocals(s: map<string, Json>, required: seq<string>, properties: map<string, Json>, m: map<string, Json>,
      path: Path)
    requires ObjectLike(s, required, properties)
    ensures LocalErrors(s, JObj(m), path) == MissingErrors(required, m, path)
  {
    LacksMost(s);
    RequiredOnly(s, required, m);
  }

  lemma ObjectInside(s: map<string, Json>, required: seq<string>, properties: map<string, Json>, m: map<string, Json>,
      path: Path)
    requires ObjectLike(s, required, properties)
    ensures "$ref" !in s
    ensures PropertyErrors(JObj(s), JObj(m), path) == MemberErrors(properties, m, path)
    ensures ExtraErrors(JObj(s), JObj(m), path) == {} && ItemErrors(JObj(s), JObj(m), path) == {}
    ensures AnyOfErrors(JObj(s), JObj(m), path) == {}
  {
    LacksMost(s);
  }

  lemma AddUp(s: map<string, Json>, v: Json, path: Path, locals: set<SchemaError>, members: set<SchemaError>)
    requires "$ref" !in s && LocalErrors(s, v, path) == locals && PropertyErrors(JObj(s), v, path) == members
    requires ExtraErrors(JObj(s), v, path) == {} && ItemErrors(JObj(s), v, path) == {}
    requires AnyOfErrors(JObj(s), v, path) == {}
    ensures Errors(JObj(s), v, path) == locals + members
  {
  }

  /** The errors of an object under `ObjectSchema`: its missing names, and those of its members. */
  lemma ObjectErrors(required: seq<string>, properties: map<string, Json>, m: map<string, Json>, path: Path)
    ensures Errors(C.ObjectSchema(required, properties), JObj(m), path)
            == MissingErrors(required, m, path) + MemberErrors(properties, m, path)
  {
    var s := C.ObjectSchema(required, properties).m;
    ObjectKeys(required, properties);
    ObjectLocals(s, required, properties, m, path);
    ObjectInside(s, required, properties, m, path);
    AddUp(s, JObj(m), path, MissingErrors(required, m, path), MemberErrors(properties, m, path));
  }

  /** A schema with these keywords only looks at the value itself. */
  lemma FlatErrors(s: map<string, Json>, v: Json, path: Path)
    requires Lacks(s, ["$ref", "properties", "additionalProperties", "items", "anyOf"])
    ensures Errors(JObj(s), v, path) == LocalErrors(s, v, path)
  {
    var a := ["$ref", "properties", "additionalProperties", "items", "anyOf"];
    assert a[0] !in s && a[1] !in s && a[2] !in s && a[3] !in s && a[4] !in s;
    AddUp(s, v, path, LocalErrors(s, v, path), {});
  }

  lemma TypedErrors(name: string, v: Json, path: Path)
    ensures Errors(C.Typed(name), v, path) == When(!HasType(name, v), path, "type")
  {
    FlatErrors(C.Typed(name).m, v, path);
    TypedLocals(name, v, path);
  }

  lemma TypedLocals(name: string, v: Json, path: Path)
    ensures LocalErrors(map["type" := JStr(name)], v, path) == When(!HasType(name, v), path, "type")
  {
  }

  lemma NameErrors(name: string, path: Path)
    requires 1 <= |name| <= 64
    ensures Errors(C.NameSchema(), JStr(name), path) == {}
  {
    FlatErrors(C.NameSchema().m, JStr(name), path);
    NameLocals(name, path);
  }

  lemma NameLocals(name: string, path: Path)
    requires 1 <= |name| <= 64
    ensures LocalErrors(C.NameSchema().m, JStr(name), path) == {}
  {
  }

  lemma ArrayErrors(item: Json, xs: seq<Json>, path: Path)
    requires item.JObj?
    requires forall i | 0 <= i < |xs| :: Errors(item, xs[i], path + [Index(i)]) == {}
    ensures Errors(C.ArrayOf(item), JArr(xs), path) == {}
  {
  }

  /** The members that the properties speak of are valid. */
  predicate MembersFine(properties: map<string, Json>, m: map<string, Json>, path: Path) {
    forall k | k in properties && k in m :: Errors(properties[k], m[k], path + [Key(k)]) == {}
  }

  /** The member with this name, if there is one, is valid. */
  predicate ErrorFree(k: string, s: Json, m: map<string, Json>, path: Path) {
    k in m ==> Errors(s, m[k], path + [Key(k)]) == {}
  }

  lemma OneMoreProperty(properties: map<string, Json>, k: string, s: Json, m: map<string, Json>, path: Path)
    requires MembersFine(properties, m, path) && ErrorFree(k, s, m, path)
    ensures MembersFine(properties[k := s], m, path)
  {
  }

  predicate HasNames(m: map<string, Json>, names: seq<string>) { forall i | 0 <= i < |names| :: names[i] in m }

  lemma ObjectFine(required: seq<string>, properties: map<string, Json>, m: map<string, Json>, path: Path)
    requires HasNames(m, required) && MembersFine(properties, m, path)
    ensures Errors(C.ObjectSchema(required, properties), JObj(m), path) == {}
  {
    ObjectErrors(required, properties, m, path);
  }

  lemma TypedFine(name: string, v: Json, path: Path)
    requires HasType(name, v)
    ensures Errors(C.Typed(name), v, path) == {}
  {
    TypedErrors(name, v, path);
  }

  // ----- what the service puts into bodies -----

  /** The note beside the reference to DeviceStatus changes no verdict. */
  lemma StatusErrors(v: Json, path: Path)
    ensures Errors(C.StatusOut(), v, path) == Errors(C.StatusSchema(), v, path)
  {
    var over := map["description" := JStr(C.STATUS_NOTE)];
    assert "description" !in KEYWORDS;
    AnnotationsAreHarmless(C.StatusSchema().m, over, v, path);
  }

  lemma StatusLocals(v: Json, path: Path)
    ensures Errors(C.StatusSchema(), v, path)
            == When(!v.JStr?, path, "type") + When(!EnumAllows(StatusEnum(), v), path, "enum")
  {
    FlatErrors(C.StatusSchema().m, v, path);
    EnumLocals(StatusEnum(), v, path);
  }

  function StatusEnum(): Json { C.Strings(["online", "offline", "degraded"]) }

  lemma EnumLocals(names: Json, v: Json, path: Path)
    ensures LocalErrors(map["type" := JStr("string"), "enum" := names], v, path)
            == When(!v.JStr?, path, "type") + When(!EnumAllows(names, v), path, "enum")
  {
  }

  lemma StatusIsListed(status: Status)
    ensures EnumAllows(StatusEnum(), JStr(StatusText(status)))
  {
    var names := StatusEnum().items;
    assert names[0] == JStr("online") && names[1] == JStr("offline") && names[2] == JStr("degraded");
    assert forall i | 0 <= i < 3 :: SchemaEqual(names[i], names[i]);
  }

  lemma StatusFine(status: Status, path: Path)
    ensures Errors(C.StatusOut(), JStr(StatusText(status)), path) == {}
  {
    StatusErrors(JStr(StatusText(status)), path);
    StatusLocals(JStr(StatusText(status)), path);
    StatusIsListed(status);
  }

  lemma DeviceFine(d: Device, path: Path)
    requires 1 <= |d.name| <= 64
    ensures Errors(C.DeviceOut(), DeviceJson(d), path) == {}
  {
    TypedFine("integer", JInt(d.id), path + [Key("id")]);
    NameErrors(d.name, path + [Key("name")]);
    StatusFine(d.status, path + [Key("status")]);
    ThreeFine("id", "name", "status", C.Typed("integer"), C.NameSchema(), C.StatusOut(), DeviceJson(d).m, path);
  }

  lemma ThreeFine(a: string, b: string, c: string, sa: Json, sb: Json, sc: Json, m: map<string, Json>, path: Path)
    requires HasNames(m, [a, b, c])
    requires ErrorFree(a, sa, m, path) && ErrorFree(b, sb, m, path) && ErrorFree(c, sc, m, path)
    ensures Errors(C.ObjectSchema([a, b, c], map[a := sa, b := sb, c := sc]), JObj(m), path) == {}
  {
    OneMoreProperty(map[], a, sa, m, path);
    OneMoreProperty(map[a := sa], b, sb, m, path);
    OneMoreProperty(map[a := sa, b := sb], c, sc, m, path);
    ObjectFine([a, b, c], map[a := sa, b := sb, c := sc], m, path);
  }

  /** Devices whose names fit. */
  predicate Fit(ds: seq<Device>) { forall i | 0 <= i < |ds| :: 1 <= |ds[i].name| <= 64 }

  lemma DevicesFine(ds: seq<Device>, path: Path)
    requires Fit(ds)
    ensures Errors(C.ArrayOf(C.DeviceOut()), DeviceList(ds), path) == {}
  {
    forall i | 0 <= i < |ds| ensures Errors(C.DeviceOut(), DeviceList(ds).items[i], path + [Index(i)]) == {} {
      DeviceFine(ds[i], path + [Index(i)]);
    }
    ArrayErrors(C.DeviceOut(), DeviceList(ds).items, path);
  }

  lemma FourFine(a: string, b: string, c: string, d: string, sa: Json, sb: Json, m: map<string, Json>, path: Path)
    requires HasNames(m, [a, b, c, d])
    requires ErrorFree(a, sa, m, path) && ErrorFree(b, sb, m, path)
    requires ErrorFree(c, sb, m, path) && ErrorFree(d, sb, m, path)
    ensures Errors(C.ObjectSchema([a, b, c, d], map[a := sa, b := sb, c := sb, d := sb]), JObj(m), path) == {}
  {
    OneMoreProperty(map[], a, sa, m, path);
    OneMoreProperty(map[a := sa], b, sb, m, path);
    OneMoreProperty(map[a := sa, b := sb], c, sb, m, path);
    OneMoreProperty(map[a := sa, b := sb, c := sb], d, sb, m, path);
    ObjectFine([a, b, c, d], map[a := sa, b := sb, c := sb, d := sb], m, path);
  }

  lemma FourMembersFine(a: string, b: string, c: string, d: string, sa: Json, sb: Json,
      w: Json, x: Json, y: Json, z: Json, path: Path)
    requires a != b && a != c && a != d && b != c && b != d && c != d
    requires Errors(sa, w, path + [Key(a)]) == {} && Errors(sb, x, path + [Key(b)]) == {}
    requires Errors(sb, y, path + [Key(c)]) == {} && Errors(sb, z, path + [Key(d)]) == {}
    ensures Errors(C.ObjectSchema([a, b, c, d], map[a := sa, b := sb, c := sb, d := sb]),
              JObj(map[a := w, b := x, c := y, d := z]), path) == {}
  {
    var m := FourMembers(a, b, c, d, w, x, y, z);
    FourFine(a, b, c, d, sa, sb, m, path);
  }

  lemma FourMembers(a: string, b: string, c: string, d: string, w: Json, x: Json, y: Json, z: Json)
    returns (m: map<string, Json>)
    requires a != b && a != c && a != d && b != c && b != d && c != d
    ensures m == map[a := w, b := x, c := y, d := z] && HasNames(m, [a, b, c, d])
    ensures m[a] == w && m[b] == x && m[c] == y && m[d] == z
  {
    m := map[a := w, b := x, c := y, d := z];
  }

  lemma PageFine(ds: seq<Device>, total: int, limit: int, offset: int, path: Path)
    requires Fit(ds)
    ensures Errors(C.PageSchema(C.DeviceOut()), PageJson(ds, total, limit, offset), path) == {}
  {
    DevicesFine(ds, path + [Key("items")]);
    PageOfFine(C.DeviceOut(), DeviceList(ds), total, limit, offset, path);
  }

  lemma PageOfFine(device: Json, items: Json, total: int, limit: int, offset: int, path: Path)
    requires Errors(C.ArrayOf(device), items, path + [Key("items")]) == {}
    ensures Errors(C.PageSchema(device), PageOf(items, total, limit, offset), path) == {}
  {
    TypedFine("integer", JInt(total), path + [Key("total")]);
    TypedFine("integer", JInt(limit), path + [Key("limit")]);
    TypedFine("integer", JInt(offset), path + [Key("offset")]);
    FourMembersFine("items", "total", "limit", "offset", C.ArrayOf(device), C.Typed("integer"),
      items, JInt(total), JInt(limit), JInt(offset), path);
  }

  lemma DetailFine(code: string, message: string, path: Path)
    ensures Errors(C.DetailSchema(), JObj(map["code" := JStr(code), "message" := JStr(message)]), path) == {}
  {
    TypedFine("string", JStr(code), path + [Key("code")]);
    TypedFine("string", JStr(message), path + [Key("message")]);
    TwoFine("code", "message", C.Typed("string"), JStr(code), JStr(message), path);
  }

  lemma TwoFine(a: string, b: string, s: Json, x: Json, y: Json, path: Path)
    requires a != b && Errors(s, x, path + [Key(a)]) == {} && Errors(s, y, path + [Key(b)]) == {}
    ensures Errors(C.ObjectSchema([a, b], map[a := s, b := s]), JObj(map[a := x, b := y]), path) == {}
  {
    var m := map[a := x, b := y];
    OneMoreProperty(map[], a, s, m, path);
    OneMoreProperty(map[a := s], b, s, m, path);
    ObjectFine([a, b], map[a := s, b := s], m, path);
  }

  lemma ErrorFine(status: nat, message: string, path: Path)
    ensures Errors(C.ErrorSchema(C.DetailSchema()), ErrorJson(status, message), path) == {}
  {
    DetailFine(ErrorCode(status), message, path + [Key("error")]);
    ErrorOfFine(C.DetailSchema(), ErrorJson(status, message).m["error"], path);
  }

  lemma ErrorOfFine(detail: Json, value: Json, path: Path)
    requires Errors(detail, value, path + [Key("error")]) == {}
    ensures Errors(C.ErrorSchema(detail), JObj(map["error" := value]), path) == {}
  {
    OneMoreProperty(map[], "error", detail, map["error" := value], path);
    ObjectFine(["error"], map["error" := detail], map["error" := value], path);
  }

  lemma HealthFine(path: Path)
    ensures Errors(C.HealthSchema(), JObj(map["status" := JStr("ok")]), path) == {}
  {
    TypedFine("string", JStr("ok"), path + [Key("status")]);
    ExtrasFine(C.Typed("string"), "status", JStr("ok"), path);
  }

  lemma ExtrasFine(s: Json, k: string, v: Json, path: Path)
    requires s.JObj? && Errors(s, v, path + [Key(k)]) == {}
    ensures Errors(JObj(map["type" := JStr("object"), "additionalProperties" := s]), JObj(map[k := v]), path) == {}
  {
    var t := map["type" := JStr("object"), "additionalProperties" := s];
    FreeFormLocals(s, map[k := v], path);
    FreeFormInside(t, s, k, v, path);
  }

  lemma FreeFormLocals(s: Json, m: map<string, Json>, path: Path)
    ensures LocalErrors(map["type" := JStr("object"), "additionalProperties" := s], JObj(m), path) == {}
  {
  }

  lemma FreeFormInside(t: map<string, Json>, s: Json, k: string, v: Json, path: Path)
    requires s.JObj? && Errors(s, v, path + [Key(k)]) == {}
    requires "additionalProperties" in t && t["additionalProperties"] == s
    requires Lacks(t, ["$ref", "properties", "items", "anyOf"])
    requires LocalErrors(t, JObj(map[k := v]), path) == {}
    ensures Errors(JObj(t), JObj(map[k := v]), path) == {}
  {
    var a := ["$ref", "properties", "items", "anyOf"];
    assert a[0] !in t && a[1] !in t && a[2] !in t && a[3] !in t;
    assert ExtraErrors(JObj(t), JObj(map[k := v]), path) == {};
  }

  // ----- the status tables -----

  lemma StatusDigits(n: nat)
    requires 100 <= n < 1000
    ensures Decimal(n) == [Digit(n / 100), Digit(n / 10 % 10), Digit(n % 10)]
  {
    assert Decimal(n / 10) == Decimal(n / 10 / 10) + [Digit(n / 10 % 10)];
    assert n / 10 / 10 == n / 100;
  }

  lemma StatusNames()
    ensures Decimal(200) == "200" && Decimal(201) == "201" && Decimal(204) == "204"
    ensures Decimal(400) == "400" && Decimal(404) == "404" && Decimal(409) == "409" && Decimal(422) == "422"
  {
    StatusDigits(200);
    StatusDigits(201);
    StatusDigits(204);
    StatusDigits(400);
    StatusDigits(404);
    StatusDigits(409);
    StatusDigits(422);
  }

  predicate Declares(responses: map<string, Json>, status: string, declared: Json) {
    status in responses && responses[status] == declared
  }

  /** The declared response has a body schema, and the body is valid under it once resolved. */
  ghost predicate BodyKept(doc: Json, declared: Json, body: Json) {
    exists s, out :: declared == C.WithBody(s) && C.Becomes(doc, s, out) && Errors(out, body, []) == {}
  }

  /** The answer's status is declared, and its body or absence of one is as declared. */
  ghost predicate Kept(doc: Json, responses: map<string, Json>, answer: Answer) {
    && Decimal(answer.status) in responses
    && match answer.body
       case None => responses[Decimal(answer.status)] == C.NoContent()
       case Some(body) => BodyKept(doc, responses[Decimal(answer.status)], body)
  }

  lemma BodyIsKept(doc: Json, responses: map<string, Json>, answer: Answer, s: Json, out: Json)
    requires answer.body.Some? && Declares(responses, Decimal(answer.status), C.WithBody(s))
    requires C.Becomes(doc, s, out) && Errors(out, answer.body.value, []) == {}
    ensures Kept(doc, responses, answer)
  {
  }

  lemma DeviceResolves(doc: Json)
    requires C.BodiesResolve(doc)
    ensures C.Becomes(doc, C.Ref("Device"), C.DeviceOut())
  {
    assert C.Becomes(doc, C.DeclaredBody(C.ADevice), C.ResolvedBody(C.ADevice));
  }

  lemma PageResolves(doc: Json)
    requires C.BodiesResolve(doc)
    ensures C.Becomes(doc, C.Ref("DevicePage"), C.PageSchema(C.DeviceOut()))
  {
    assert C.Becomes(doc, C.DeclaredBody(C.APage), C.ResolvedBody(C.APage));
  }

  lemma ListResolves(doc: Json)
    requires C.BodiesResolve(doc)
    ensures C.Becomes(doc, C.ArrayOf(C.Ref("Device")), C.ArrayOf(C.DeviceOut()))
  {
    assert C.Becomes(doc, C.DeclaredBody(C.AList), C.ResolvedBody(C.AList));
  }

  lemma ErrorResolves(doc: Json)
    requires C.BodiesResolve(doc)
    ensures C.Becomes(doc, C.Ref("ErrorResponse"), C.ErrorSchema(C.DetailSchema()))
  {
    assert C.Becomes(doc, C.DeclaredBody(C.AnError), C.ResolvedBody(C.AnError));
  }

  lemma HealthResolves(doc: Json)
    requires C.BodiesResolve(doc)
    ensures C.Becomes(doc, C.HealthSchema(), C.HealthSchema())
  {
    assert C.Becomes(doc, C.DeclaredBody(C.AReport), C.ResolvedBody(C.AReport));
  }

  lemma ProblemKept(doc: Json, responses: map<string, Json>, status: nat, message: string)
    requires C.BodiesResolve(doc) && Declares(responses, Decimal(status), C.ErrorBody())
    ensures Kept(doc, responses, Service.Problem(status, message))
  {
    ErrorFine(status, message, []);
    ErrorResolves(doc);
    BodyIsKept(doc, responses, Service.Problem(status, message), C.Ref("ErrorResponse"),
      C.ErrorSchema(C.DetailSchema()));
  }

  lemma DeviceKept(doc: Json, responses: map<string, Json>, answer: Answer, d: Device)
    requires C.BodiesResolve(doc) && 1 <= |d.name| <= 64
    requires answer.body == Some(DeviceJson(d))
    requires Declares(responses, Decimal(answer.status), C.WithBody(C.Ref("Device")))
    ensures Kept(doc, responses, answer)
  {
    DeviceFine(d, []);
    DeviceResolves(doc);
    BodyIsKept(doc, responses, answer, C.Ref("Device"), C.DeviceOut());
  }

  // ----- the handlers -----

  lemma ListFits(store: Store)
    requires NamesFit(store)
    ensures Fit(ListDevices(store))
  {
    var ids := Sorted(store.devices.Keys);
    forall i | 0 <= i < |ListDevices(store)| ensures 1 <= |ListDevices(store)[i].name| <= 64 {
      assert ids[i] in ids;
    }
  }

  lemma {:induction false} SelectFits(ds: seq<Device>, keep: Device -> bool)
    requires Fit(ds)
    ensures Fit(Select(ds, keep))
  {
    if ds != [] { SelectFits(ds[1..], keep); }
  }

  lemma SliceFits(ds: seq<Device>, offset: nat, limit: nat)
    requires Fit(ds)
    ensures Fit(Slice(ds, offset, limit))
  {
  }

  lemma ListKept(doc: Json, responses: map<string, Json>, store: Store, limit: Option<string>, offset: Option<string>)
    requires C.BodiesResolve(doc) && NamesFit(store)
    requires Declares(responses, "200", C.WithBody(C.Ref("DevicePage"))) && Declares(responses, "422", C.ErrorBody())
    ensures Kept(doc, responses, HandleList(store, limit, offset))
  {
    StatusNames();
    var l, o := IntParam(limit, 50, 1, Some(100)), IntParam(offset, 0, 0, None);
    if l.None? || o.None? || l.value < 1 || o.value < 0 {
      ProblemKept(doc, responses, 422, "Request validation failed");
    } else {
      ListFits(store);
      SliceFits(ListDevices(store), o.value, l.value);
      var (items, total) := PageDevices(store, l.value, o.value);
      PageFine(items, total, l.value, o.value, []);
      PageResolves(doc);
      BodyIsKept(doc, responses, HandleList(store, limit, offset), C.Ref("DevicePage"), C.PageSchema(C.DeviceOut()));
    }
  }

  /** The answer is an error answer with one of these statuses. */
  ghost predicate IsProblem(a: Answer, statuses: set<nat>) {
    a.status in statuses && exists message :: a == Service.Problem(a.status, message)
  }

  /** The answer has this status and shows a device. */
  ghost predicate ShowsDevice(a: Answer, status: nat) {
    a.status == status && exists d: Device :: 1 <= |d.name| <= 64 && a.body == Some(DeviceJson(d))
  }

  ghost predicate DeclaresProblems(responses: map<string, Json>, statuses: set<nat>) {
    forall status | status in statuses :: Declares(responses, Decimal(status), C.ErrorBody())
  }

  lemma EitherKept(doc: Json, responses: map<string, Json>, a: Answer, good: nat, bad: set<nat>)
    requires C.BodiesResolve(doc) && (IsProblem(a, bad) || ShowsDevice(a, good))
    requires Declares(responses, Decimal(good), C.WithBody(C.Ref("Device"))) && DeclaresProblems(responses, bad)
    ensures Kept(doc, responses, a)
  {
    if IsProblem(a, bad) {
      var message :| a == Service.Problem(a.status, message);
      ProblemKept(doc, responses, a.status, message);
    } else {
      var d: Device :| 1 <= |d.name| <= 64 && a.body == Some(DeviceJson(d));
      DeviceKept(doc, responses, a, d);
    }
  }

  lemma AProblem(status: nat, message: string, statuses: set<nat>)
    requires status in statuses
    ensures IsProblem(Service.Problem(status, message), statuses)
  {
  }

  lemma CommonProblems(statuses: set<nat>)
    requires 400 in statuses && 422 in statuses
    ensures IsProblem(NotJson(), statuses) && IsProblem(Invalid(), statuses)
  {
    AProblem(400, "There was an error parsing the body", statuses);
    AProblem(422, "Request validation failed", statuses);
  }

  lemma ADevice(a: Answer, status: nat, d: Device)
    requires a.status == status && 1 <= |d.name| <= 64 && a.body == Some(DeviceJson(d))
    ensures ShowsDevice(a, status)
  {
  }

  lemma CreateAnswers(store: Store, body: Body)
    ensures var a := HandleCreate(store, body).1; IsProblem(a, {400, 409, 422}) || ShowsDevice(a, 201)
  {
    CommonProblems({400, 409, 422});
    if body.Payload? && ValidCreate(body.json).Some? {
      var (name, status) := ValidCreate(body.json).value;
      AProblem(409, "A device named '" + name + "' already exists", {400, 409, 422});
      if !NameTaken(store, name) {
        ADevice(HandleCreate(store, body).1, 201, Device(store.nextId, name, status));
      }
    }
  }

  lemma SearchKept(doc: Json, responses: map<string, Json>, store: Store, nameContains: Option<string>,
      status: Option<string>)
    requires C.BodiesResolve(doc) && NamesFit(store)
    requires Declares(responses, "200", C.WithBody(C.ArrayOf(C.Ref("Device"))))
    requires Declares(responses, "422", C.ErrorBody())
    ensures Kept(doc, responses, HandleSearch(store, nameContains, status))
  {
    StatusNames();
    if status.Some? && ParseStatus(status.value).None? {
      ProblemKept(doc, responses, 422, "Request validation failed");
    } else {
      var found := Found(store, nameContains, status);
      FoundFits(store, nameContains, status);
      DevicesFine(found, []);
      ListResolves(doc);
      BodyIsKept(doc, responses, HandleSearch(store, nameContains, status), C.ArrayOf(C.Ref("Device")),
        C.ArrayOf(C.DeviceOut()));
    }
  }

  lemma FoundFits(store: Store, nameContains: Option<string>, status: Option<string>)
    requires NamesFit(store)
    ensures Fit(Found(store, nameContains, status))
  {
    ListFits(store);
    if nameContains.Some? { SelectFits(ListDevices(store), d => NameContains(d, nameContains.value)); }
    if status.Some? {
      SelectFits(Named(store, nameContains), d => HasStatus(d, status.value));
    }
  }

  lemma GetKept(doc: Json, responses: map<string, Json>, store: Store, id: string)
    requires C.BodiesResolve(doc) && NamesFit(store)
    requires Declares(responses, "200", C.WithBody(C.Ref("Device")))
    requires Declares(responses, "404", C.ErrorBody()) && Declares(responses, "422", C.ErrorBody())
    ensures Kept(doc, responses, HandleGet(store, id))
  {
    StatusNames();
    match ParseInt(id)
    case None => ProblemKept(doc, responses, 422, "Request validation failed");
    case Some(n) =>
      if n in store.devices { DeviceKept(doc, responses, HandleGet(store, id), store.devices[n]); }
      else { ProblemKept(doc, responses, 404, "No device with id " + IntText(n)); }
  }

  lemma ReplaceAnswers(store: Store, id: string, body: Body)
    ensures var a := HandleReplace(store, id, body).1; IsProblem(a, {400, 404, 422}) || ShowsDevice(a, 200)
  {
    CommonProblems({400, 404, 422});
    if body.Payload? && ParseInt(id).Some? && ValidUpdate(body.json).Some? {
      var n := ParseInt(id).value;
      var (name, status) := ValidUpdate(body.json).value;
      AProblem(404, "No device with id " + IntText(n), {400, 404, 422});
      if n in store.devices { ADevice(HandleReplace(store, id, body).1, 200, Device(n, name, status)); }
    }
  }

  lemma DeleteKept(doc: Json, responses: map<string, Json>, store: Store, id: string)
    requires C.BodiesResolve(doc)
    requires Declares(responses, "204", C.NoContent())
    requires Declares(responses, "404", C.ErrorBody()) && Declares(responses, "422", C.ErrorBody())
    ensures Kept(doc, responses, HandleDelete(store, id).1)
  {
    StatusNames();
    match ParseInt(id)
    case None => ProblemKept(doc, responses, 422, "Request validation failed");
    case Some(n) => if n !in store.devices { ProblemKept(doc, responses, 404, "No device with id " + IntText(n)); }
  }

  lemma SetStateAnswers(store: Store, id: string, body: Body)
    requires NamesFit(store)
    ensures var a := HandleSetState(store, id, body).1; IsProblem(a, {400, 404, 409, 422}) || ShowsDevice(a, 200)
  {
    CommonProblems({400, 404, 409, 422});
    var a := HandleSetState(store, id, body).1;
    if a != NotJson() && a != Invalid() {
      var n, target := ParseInt(id).value, ValidStatus(body.json).value;
      AProblem(404, "No device with id " + IntText(n), {400, 404, 409, 422});
      if n in store.devices { FoundStateAnswers(store, n, target, a); }
    }
  }

  lemma FoundStateAnswers(store: Store, n: int, target: Status, a: Answer)
    requires NamesFit(store) && n in store.devices
    requires a == if IsLegalTransition(store.devices[n].status, target)
                  then Fine(200, DeviceJson(StatusSet(store, n, target).devices[n]))
                  else IllegalTransition(store.devices[n].status, target)
    ensures IsProblem(a, {400, 404, 409, 422}) || ShowsDevice(a, 200)
  {
    if IsLegalTransition(store.devices[n].status, target) {
      ADevice(a, 200, StatusSet(store, n, target).devices[n]);
    }
  }

  // ----- operation by operation -----

  lemma ListDeclares()
    ensures Declares(C.ResponseTable(C.AtList), "200", C.WithBody(C.Ref("DevicePage")))
    ensures Declares(C.ResponseTable(C.AtList), "422", C.ErrorBody())
  {
  }

  lemma SearchDeclares()
    ensures Declares(C.ResponseTable(C.AtSearch), "200", C.WithBody(C.ArrayOf(C.Ref("Device"))))
    ensures Declares(C.ResponseTable(C.AtSearch), "422", C.ErrorBody())
  {
  }

  lemma GetDeclares()
    ensures Declares(C.ResponseTable(C.AtGet), "200", C.WithBody(C.Ref("Device")))
    ensures Declares(C.ResponseTable(C.AtGet), "404", C.ErrorBody())
    ensures Declares(C.ResponseTable(C.AtGet), "422", C.ErrorBody())
  {
  }

  lemma DeleteDeclares()
    ensures Declares(C.ResponseTable(C.AtDelete), "204", C.NoContent())
    ensures Declares(C.ResponseTable(C.AtDelete), "404", C.ErrorBody())
    ensures Declares(C.ResponseTable(C.AtDelete), "422", C.ErrorBody())
  {
  }

  lemma ThreeDeclared(responses: map<string, Json>, a: nat, b: nat, c: nat)
    requires Declares(responses, Decimal(a), C.ErrorBody()) && Declares(responses, Decimal(b), C.ErrorBody())
    requires Declares(responses, Decimal(c), C.ErrorBody())
    ensures DeclaresProblems(responses, {a, b, c})
  {
  }

  lemma FourDeclared(responses: map<string, Json>, a: nat, b: nat, c: nat, d: nat)
    requires Declares(responses, Decimal(a), C.ErrorBody()) && Declares(responses, Decimal(b), C.ErrorBody())
    requires Declares(responses, Decimal(c), C.ErrorBody()) && Declares(responses, Decimal(d), C.ErrorBody())
    ensures DeclaresProblems(responses, {a, b, c, d})
  {
  }

  lemma PlainCreateTable()
    ensures Declares(C.CreateResponses(), "201", C.WithBody(C.Ref("Device")))
    ensures Declares(C.CreateResponses(), "400", C.ErrorBody())
    ensures Declares(C.CreateResponses(), "409", C.ErrorBody())
    ensures Declares(C.CreateResponses(), "422", C.ErrorBody())
  {
  }

  lemma CreateTable()
    ensures Declares(C.ResponseTable(C.AtCreate), "201", C.WithBody(C.Ref("Device")))
    ensures Declares(C.ResponseTable(C.AtCreate), "400", C.ErrorBody())
    ensures Declares(C.ResponseTable(C.AtCreate), "409", C.ErrorBody())
    ensures Declares(C.ResponseTable(C.AtCreate), "422", C.ErrorBody())
  {
    PlainCreateTable();
  }

  lemma CreateDeclares()
    ensures Declares(C.ResponseTable(C.AtCreate), Decimal(201), C.WithBody(C.Ref("Device")))
    ensures DeclaresProblems(C.ResponseTable(C.AtCreate), {400, 409, 422})
  {
    StatusNames();
    CreateTable();
    ThreeDeclared(C.ResponseTable(C.AtCreate), 400, 409, 422);
  }

  lemma PlainReplaceTable()
    ensures Declares(C.ReplaceResponses(), "200", C.WithBody(C.Ref("Device")))
    ensures Declares(C.ReplaceResponses(), "400", C.ErrorBody())
    ensures Declares(C.ReplaceResponses(), "404", C.ErrorBody())
    ensures Declares(C.ReplaceResponses(), "422", C.ErrorBody())
  {
  }

  lemma ReplaceTable()
    ensures Declares(C.ResponseTable(C.AtReplace), "200", C.WithBody(C.Ref("Device")))
    ensures Declares(C.ResponseTable(C.AtReplace), "400", C.ErrorBody())
    ensures Declares(C.ResponseTable(C.AtReplace), "404", C.ErrorBody())
    ensures Declares(C.ResponseTable(C.AtReplace), "422", C.ErrorBody())
  {
    PlainReplaceTable();
  }

  lemma ReplaceDeclares()
    ensures Declares(C.ResponseTable(C.AtReplace), Decimal(200), C.WithBody(C.Ref("Device")))
    ensures DeclaresProblems(C.ResponseTable(C.AtReplace), {400, 404, 422})
  {
    StatusNames();
    ReplaceTable();
    ThreeDeclared(C.ResponseTable(C.AtReplace), 400, 404, 422);
  }

  lemma PlainSetStateTable()
    ensures Declares(C.SetStateResponses(), "200", C.WithBody(C.Ref("Device")))
    ensures Declares(C.SetStateResponses(), "400", C.ErrorBody())
    ensures Declares(C.SetStateResponses(), "404", C.ErrorBody())
    ensures Declares(C.SetStateResponses(), "409", C.ErrorBody())
    ensures Declares(C.SetStateResponses(), "422", C.ErrorBody())
  {
  }

  lemma SetStateTable()
    ensures Declares(C.ResponseTable(C.AtState), "200", C.WithBody(C.Ref("Device")))
    ensures Declares(C.ResponseTable(C.AtState), "400", C.ErrorBody())
    ensures Declares(C.ResponseTable(C.AtState), "404", C.ErrorBody())
    ensures Declares(C.ResponseTable(C.AtState), "409", C.ErrorBody())
    ensures Declares(C.ResponseTable(C.AtState), "422", C.ErrorBody())
  {
    PlainSetStateTable();
  }

  lemma SetStateDeclares()
    ensures Declares(C.ResponseTable(C.AtState), Decimal(200), C.WithBody(C.Ref("Device")))
    ensures DeclaresProblems(C.ResponseTable(C.AtState), {400, 404, 409, 422})
  {
    StatusNames();
    SetStateTable();
    FourDeclared(C.ResponseTable(C.AtState), 400, 404, 409, 422);
  }

  lemma HealthKept(doc: Json)
    requires C.BodiesResolve(doc)
    ensures Kept(doc, C.ResponseTable(C.AtHealth), Fine(200, JObj(map["status" := JStr("ok")])))
  {
    StatusNames();
    HealthFine([]);
    HealthResolves(doc);
    BodyIsKept(doc, C.ResponseTable(C.AtHealth), Fine(200, JObj(map["status" := JStr("ok")])), C.HealthSchema(),
      C.HealthSchema());
  }

  /** The answer is among the responses declared for the operation. */
  ghost predicate KeptAs(doc: Json, name: C.OpName, a: Answer) { Kept(doc, C.ResponseTable(name), a) }

  lemma HealthIsKept(doc: Json)
    requires C.BodiesResolve(doc)
    ensures KeptAs(doc, C.AtHealth, Fine(200, JObj(map["status" := JStr("ok")])))
  {
    HealthKept(doc);
  }

  lemma ListIsKept(doc: Json, store: Store, limit: Option<string>, offset: Option<string>)
    requires C.BodiesResolve(doc) && NamesFit(store)
    ensures KeptAs(doc, C.AtList, HandleList(store, limit, offset))
  {
    ListDeclares();
    ListKept(doc, C.ResponseTable(C.AtList), store, limit, offset);
  }

  lemma CreateIsKept(doc: Json, store: Store, body: Body)
    requires C.BodiesResolve(doc)
    ensures KeptAs(doc, C.AtCreate, HandleCreate(store, body).1)
  {
    CreateDeclares();
    CreateAnswers(store, body);
    EitherKept(doc, C.ResponseTable(C.AtCreate), HandleCreate(store, body).1, 201, {400, 409, 422});
  }

  lemma SearchIsKept(doc: Json, store: Store, nameContains: Option<string>, status: Option<string>)
    requires C.BodiesResolve(doc) && NamesFit(store)
    ensures KeptAs(doc, C.AtSearch, HandleSearch(store, nameContains, status))
  {
    SearchDeclares();
    SearchKept(doc, C.ResponseTable(C.AtSearch), store, nameContains, status);
  }

  lemma GetIsKept(doc: Json, store: Store, id: string)
    requires C.BodiesResolve(doc) && NamesFit(store)
    ensures KeptAs(doc, C.AtGet, HandleGet(store, id))
  {
    GetDeclares();
    GetKept(doc, C.ResponseTable(C.AtGet), store, id);
  }

  lemma ReplaceIsKept(doc: Json, store: Store, id: string, body: Body)
    requires C.BodiesResolve(doc)
    ensures KeptAs(doc, C.AtReplace, HandleReplace(store, id, body).1)
  {
    ReplaceDeclares();
    ReplaceAnswers(store, id, body);
    EitherKept(doc, C.ResponseTable(C.AtReplace), HandleReplace(store, id, body).1, 200, {400, 404, 422});
  }

  lemma DeleteIsKept(doc: Json, store: Store, id: string)
    requires C.BodiesResolve(doc)
    ensures KeptAs(doc, C.AtDelete, HandleDelete(store, id).1)
  {
    DeleteDeclares();
    DeleteKept(doc, C.ResponseTable(C.AtDelete), store, id);
  }

  lemma SetStateIsKept(doc: Json, store: Store, id: string, body: Body)
    requires C.BodiesResolve(doc) && NamesFit(store)
    ensures KeptAs(doc, C.AtState, HandleSetState(store, id, body).1)
  {
    SetStateDeclares();
    SetStateAnswers(store, id, body);
    EitherKept(doc, C.ResponseTable(C.AtState), HandleSetState(store, id, body).1, 200, {400, 404, 409, 422});
  }

  lemma ReadsAreKept(doc: Json, store: Store, op: Operation)
    requires C.BodiesResolve(doc) && NamesFit(store)
    requires op.Health? || op.List? || op.Search? || op.Get?
    ensures KeptAs(doc, NameOf(op), Handle(store, op).1)
  {
    match op
    case Health => HealthIsKept(doc);
    case List(limit, offset) => ListIsKept(doc, store, limit, offset);
    case Search(nameContains, status) => SearchIsKept(doc, store, nameContains, status);
    case Get(id) => GetIsKept(doc, store, id);
    case _ =>
  }

  lemma WritesAreKept(doc: Json, store: Store, op: Operation)
    requires C.BodiesResolve(doc) && NamesFit(store)
    requires op.Create? || op.Replace? || op.Delete? || op.SetState?
    ensures KeptAs(doc, NameOf(op), Handle(store, op).1)
  {
    match op
    case Create(body) => CreateIsKept(doc, store, body);
    case Replace(id, body) => ReplaceIsKept(doc, store, id, body);
    case Delete(id) => DeleteIsKept(doc, store, id);
    case SetState(id, body) => SetStateIsKept(doc, store, id, body);
    case _ =>
  }

  /** Whatever an operation answers is among the responses declared for it. */
  lemma HandleKept(doc: Json, store: Store, op: Operation)
    requires C.BodiesResolve(doc) && NamesFit(store)
    ensures KeptAs(doc, NameOf(op), Handle(store, op).1)
  {
    if op.Create? || op.Replace? || op.Delete? || op.SetState? {
      WritesAreKept(doc, store, op);
    } else {
      ReadsAreKept(doc, store, op);
    }
  }

  // ----- the checks of the harness -----

  /** What the serializer writes for the answer's body, the client reads back. */
  predicate ReadsBack(dumps: Json -> string, a: Answer) {
    a.body.Some? ==> Loads(dumps(a.body.value)) == a.body
  }

  /** The contract checks and the schema check find nothing. */
  ghost predicate Conforms(c: Contract, r: HttpResponse) {
    && CheckResponse(c, r) == []
    && MatchPathTemplate(c.paths, r.requestPath).Some?
    && match ResponseSchema(c, r.requestMethod, MatchPathTemplate(c.paths, r.requestPath).value, r.statusCode)
       case NoSchema => true
       case Declared(schema) => Loads(r.text).Some? && Errors(schema, Loads(r.text).value, []) == {}
       case Unresolvable => false
  }

  lemma PlainContentType(t: string)
    requires ';' !in t && Stripped(t)
    ensures Strip(Split(t, ';')[0]) == t
  {
    SplitAtSeparator(t, "", ';');
    StripFixed(t);
  }

  lemma JsonTypeIsPlain()
    ensures ';' !in "application/json" && Stripped("application/json")
  {
  }

  lemma TypeHeader(dumps: Json -> string, a: Answer, r: Request)
    requires a.body.Some?
    ensures var headers := ToResponse(dumps, a, r).headers;
            "content-type" in headers && headers["content-type"] == "application/json"
  {
  }

  lemma JsonContentType(dumps: Json -> string, a: Answer, r: Request)
    requires a.body.Some?
    ensures ToResponse(dumps, a, r).ContentType() == "application/json"
  {
    TypeHeader(dumps, a, r);
    JsonTypeIsPlain();
    PlainContentType(ToResponse(dumps, a, r).headers["content-type"]);
  }

  lemma WithBodyRead(s: Json)
    ensures Content(C.WithBody(s)) == map["application/json" := JObj(map["schema" := s])]
    ensures JObj(map["schema" := s]).Get("schema") == Some(s)
  {
  }

  lemma NoContentRead()
    ensures Content(C.NoContent()) == map[]
  {
  }

  lemma OpResponses(responses: map<string, Json>)
    ensures Responses(C.Op(responses)) == responses
  {
  }

  lemma EmptyChecksOut(c: Contract, r: HttpResponse, t: string, op: Json)
    requires MatchPathTemplate(c.paths, r.requestPath) == Some(t) && r.requestMethod != ""
    requires FindOperation(c, r.requestMethod, t) == Some(op)
    requires Decimal(r.statusCode) in Responses(op) && Content(Responses(op)[Decimal(r.statusCode)]) == map[]
    requires r.BodyIsEmpty()
    ensures CheckResponse(c, r) == []
  {
  }

  lemma NoSchemaFound(c: Contract, m: string, t: string, status: nat, op: Json)
    requires FindOperation(c, m, t) == Some(op) && Decimal(status) in Responses(op)
    requires Content(Responses(op)[Decimal(status)]) == map[]
    ensures ResponseSchema(c, m, t, status) == NoSchema
  {
  }

  lemma EmptyConforms(c: Contract, r: HttpResponse, t: string, responses: map<string, Json>)
    requires MatchPathTemplate(c.paths, r.requestPath) == Some(t) && r.requestMethod != ""
    requires FindOperation(c, r.requestMethod, t) == Some(C.Op(responses))
    requires Declares(responses, Decimal(r.statusCode), C.NoContent()) && r.BodyIsEmpty()
    ensures Conforms(c, r)
  {
    OpResponses(responses);
    NoContentRead();
    EmptyChecksOut(c, r, t, C.Op(responses));
    NoSchemaFound(c, r.requestMethod, t, r.statusCode, C.Op(responses));
  }

  lemma ChecksOut(c: Contract, r: HttpResponse, t: string, op: Json, content: map<string, Json>)
    requires MatchPathTemplate(c.paths, r.requestPath) == Some(t) && r.requestMethod != ""
    requires FindOperation(c, r.requestMethod, t) == Some(op)
    requires Decimal(r.statusCode) in Responses(op) && Content(Responses(op)[Decimal(r.statusCode)]) == content
    requires r.ContentType() in content
    ensures CheckResponse(c, r) == []
  {
    assert content != map[];
  }

  lemma SchemaFound(c: Contract, m: string, t: string, status: nat, op: Json, s: Json, out: Json)
    requires FindOperation(c, m, t) == Some(op) && Decimal(status) in Responses(op)
    requires Content(Responses(op)[Decimal(status)]) == map["application/json" := JObj(map["schema" := s])]
    requires C.Becomes(c.doc, s, out)
    ensures ResponseSchema(c, m, t, status) == if s == JNull then NoSchema else Declared(out)
  {
    assert JObj(map["schema" := s]).Get("schema") == Some(s);
  }

  lemma BodyConforms(c: Contract, r: HttpResponse, t: string, responses: map<string, Json>, s: Json, out: Json)
    requires MatchPathTemplate(c.paths, r.requestPath) == Some(t) && r.requestMethod != ""
    requires FindOperation(c, r.requestMethod, t) == Some(C.Op(responses))
    requires Declares(responses, Decimal(r.statusCode), C.WithBody(s)) && C.Becomes(c.doc, s, out)
    requires r.ContentType() == "application/json"
    requires Loads(r.text).Some? && Errors(out, Loads(r.text).value, []) == {}
    ensures Conforms(c, r)
  {
    OpResponses(responses);
    WithBodyRead(s);
    ChecksOut(c, r, t, C.Op(responses), Content(C.WithBody(s)));
    SchemaFound(c, r.requestMethod, t, r.statusCode, C.Op(responses), s, out);
  }

  lemma KeptConforms(c: Contract, dumps: Json -> string, r: Request, t: string, responses: map<string, Json>, a: Answer)
    requires MatchPathTemplate(c.paths, r.path) == Some(t) && r.httpMethod != ""
    requires FindOperation(c, r.httpMethod, t) == Some(C.Op(responses))
    requires Kept(c.doc, responses, a) && ReadsBack(dumps, a)
    ensures Conforms(c, ToResponse(dumps, a, r))
  {
    match a.body
    case None => EmptyConforms(c, ToResponse(dumps, a, r), t, responses);
    case Some(body) =>
      var s, out :|
        responses[Decimal(a.status)] == C.WithBody(s) && C.Becomes(c.doc, s, out) && Errors(out, body, []) == {};
      JsonContentType(dumps, a, r);
      BodyConforms(c, ToResponse(dumps, a, r), t, responses, s, out);
  }

  // ----- the theorem -----

  /** The contract declares an operation for the request. */
  predicate IsDeclared(c: Contract, r: Request) {
    && MatchPathTemplate(c.paths, r.path).Some?
    && FindOperation(c, r.httpMethod, MatchPathTemplate(c.paths, r.path).value).Some?
  }

  /**
    In every state that any run of requests reaches, whatever is answered to a declared operation
    passes the contract checks and the schema check.
   */
  lemma HealthyServiceConforms(dumps: Json -> string, before: seq<Request>, r: Request)
    requires UpperCase(r.httpMethod) && !EndsWithNewline(r.path)
    requires IsDeclared(C.Pinned(), r)
    requires ReadsBack(dumps, Serve(StoreAfter(Seeded(), before), r).1)
    ensures Conforms(C.Pinned(), Deliver(dumps, StoreAfter(Seeded(), before), r).1)
  {
    EveryRunIsGood(before);
    GoodStoreConforms(dumps, StoreAfter(Seeded(), before), r);
  }

  /** The contract as the harness reads it: its operations, and its schemas once resolved. */
  ghost predicate Reads(c: Contract, r: Request, name: C.OpName) {
    && C.BodiesResolve(c.doc)
    && MatchPathTemplate(c.paths, r.path).Some?
    && FindOperation(c, r.httpMethod, MatchPathTemplate(c.paths, r.path).value) == Some(C.Op(C.ResponseTable(name)))
  }

  lemma PinnedReads(r: Request)
    requires UpperCase(r.httpMethod) && !EndsWithNewline(r.path) && IsDeclared(C.Pinned(), r)
    ensures NameFor(r).Some? && Reads(C.Pinned(), r, NameFor(r).value)
  {
    ContractSays(r);
    C.PinnedIsSound();
  }

  lemma AnswerConforms(c: Contract, dumps: Json -> string, r: Request, name: C.OpName, a: Answer,
      response: HttpResponse)
    requires Reads(c, r, name) && r.httpMethod != ""
    requires KeptAs(c.doc, name, a) && ReadsBack(dumps, a) && response == ToResponse(dumps, a, r)
    ensures Conforms(c, response)
  {
    KeptConforms(c, dumps, r, MatchPathTemplate(c.paths, r.path).value, C.ResponseTable(name), a);
  }

  lemma RoutedHasMethod(r: Request)
    requires Route(r).Some?
    ensures r.httpMethod != ""
  {
  }

  lemma ServeHandles(dumps: Json -> string, store: Store, r: Request)
    requires Route(r).Some?
    ensures Deliver(dumps, store, r).1 == ToResponse(dumps, Handle(store, Route(r).value).1, r)
    ensures Serve(store, r).1 == Handle(store, Route(r).value).1
  {
  }

  lemma GoodStoreConforms(dumps: Json -> string, store: Store, r: Request)
    requires Good(store) && UpperCase(r.httpMethod) && !EndsWithNewline(r.path)
    requires IsDeclared(C.Pinned(), r) && ReadsBack(dumps, Serve(store, r).1)
    ensures Conforms(C.Pinned(), Deliver(dumps, store, r).1)
  {
    PinnedReads(r);
    RoutedIff(r);
    ServedConforms(C.Pinned(), dumps, store, r);
  }

  lemma ServedConforms(c: Contract, dumps: Json -> string, store: Store, r: Request)
    requires NamesFit(store) && Route(r).Some? && Reads(c, r, NameOf(Route(r).value))
    requires ReadsBack(dumps, Serve(store, r).1)
    ensures Conforms(c, Deliver(dumps, store, r).1)
  {
    HandleKept(c.doc, store, Route(r).value);
    ServeHandles(dumps, store, r);
    RoutedHasMethod(r);
    AnswerConforms(c, dumps, r, NameOf(Route(r).value), Serve(store, r).1, Deliver(dumps, store, r).1);
  }

  // ----- with a serializer -----

  lemma ErrorPrintable(status: nat, message: string)
    ensures Printable(ErrorJson(status, message))
  {
    assert Printable(JObj(map["code" := JStr(ErrorCode(status)), "message" := JStr(message)]));
  }

  lemma DevicesPrintable(ds: seq<Device>, total: int, limit: int, offset: int)
    ensures Printable(DeviceList(ds)) && Printable(PageJson(ds, total, limit, offset))
  {
    forall i | 0 <= i < |ds| ensures Printable(DeviceJson(ds[i])) {
    }
  }

  predicate BodyPrintable(a: Answer) { a.body.Some? ==> Printable(a.body.value) }

  lemma EitherPrintable(a: Answer, good: nat, bad: set<nat>)
    requires IsProblem(a, bad) || ShowsDevice(a, good)
    ensures BodyPrintable(a)
  {
    if IsProblem(a, bad) {
      var message :| a == Service.Problem(a.status, message);
      ErrorPrintable(a.status, message);
    }
  }

  lemma ListPrintable(store: Store, limit: Option<string>, offset: Option<string>)
    ensures BodyPrintable(HandleList(store, limit, offset))
  {
    ErrorPrintable(422, "Request validation failed");
    var l, o := IntParam(limit, 50, 1, Some(100)), IntParam(offset, 0, 0, None);
    if l.Some? && o.Some? && l.value >= 1 && o.value >= 0 {
      DevicesPrintable(PageDevices(store, l.value, o.value).0, PageDevices(store, l.value, o.value).1, l.value,
        o.value);
    }
  }

  lemma SearchPrintable(store: Store, nameContains: Option<string>, status: Option<string>)
    ensures BodyPrintable(HandleSearch(store, nameContains, status))
  {
    ErrorPrintable(422, "Request validation failed");
    DevicesPrintable(Found(store, nameContains, status), 0, 0, 0);
  }

  lemma ByIdPrintable(store: Store, id: string)
    ensures BodyPrintable(HandleGet(store, id)) && BodyPrintable(HandleDelete(store, id).1)
  {
    ErrorPrintable(422, "Request validation failed");
    if ParseInt(id).Some? { ErrorPrintable(404, "No device with id " + IntText(ParseInt(id).value)); }
  }

  lemma ReadsPrintable(store: Store, op: Operation)
    requires op.Health? || op.List? || op.Search? || op.Get? || op.Delete?
    ensures BodyPrintable(Handle(store, op).1)
  {
    match op
    case List(limit, offset) => ListPrintable(store, limit, offset);
    case Search(nameContains, status) => SearchPrintable(store, nameContains, status);
    case Get(id) => ByIdPrintable(store, id);
    case Delete(id) => ByIdPrintable(store, id);
    case _ =>
  }

  lemma HandlePrintable(store: Store, op: Operation)
    requires NamesFit(store)
    ensures BodyPrintable(Handle(store, op).1)
  {
    match op
    case Create(body) =>
      CreateAnswers(store, body);
      EitherPrintable(HandleCreate(store, body).1, 201, {400, 409, 422});
    case Replace(id, body) =>
      ReplaceAnswers(store, id, body);
      EitherPrintable(HandleReplace(store, id, body).1, 200, {400, 404, 422});
    case SetState(id, body) =>
      SetStateAnswers(store, id, body);
      EitherPrintable(HandleSetState(store, id, body).1, 200, {400, 404, 409, 422});
    case _ => ReadsPrintable(store, op);
  }

  lemma PrintReadsBack(st: Style, a: Answer)
    requires BodyPrintable(a)
    ensures ReadsBack(Printer(st), a)
  {
    if a.body.Some? { PrintedReadsBack(st, a.body.value); }
  }

  /** The theorem for every style of printing, with nothing left to suppose about the serializer. */
  lemma PrintedServiceConforms(st: Style, before: seq<Request>, r: Request)
    requires UpperCase(r.httpMethod) && !EndsWithNewline(r.path)
    requires IsDeclared(C.Pinned(), r)
    ensures Conforms(C.Pinned(), Deliver(Printer(st), StoreAfter(Seeded(), before), r).1)
  {
    EveryRunIsGood(before);
    RoutesAgree(r);
    ServedPrintable(st, StoreAfter(Seeded(), before), r);
    HealthyServiceConforms(Printer(st), before, r);
  }

  lemma ServedPrintable(st: Style, store: Store, r: Request)
    requires NamesFit(store) && Route(r).Some?
    ensures ReadsBack(Printer(st), Serve(store, r).1)
  {
    HandlePrintable(store, Route(r).value);
    PrintReadsBack(st, Serve(store, r).1);
  }
}
