/**
  What the harness reports under the pinned contract (harness/validator.py against
  spec/openapi.json), in plain words: which violations a device, a list or a page has at which
  place, and which of the contract's promises a response breaks.
 */
module Verdicts {
  import opened Json
  import opened Text
  import opened Schema
  import opened Validator
  import opened Paths
  import opened Plan
  import opened Routing
  import opened Conformance
  import opened Expectations
  import opened JsonText
  import opened Runner
  import C = DeviceContract
  import B = Bugs
  import K = Keywords

  // ----- places -----

  function PlaceOf(path: Path): string { "response.body" + PathText(path) }

  /** Places read from the outside in: names as they are, positions as numbers from 0, a dot before each. */
  lemma DeeperPlace(path: Path, name: string, at: nat)
    ensures PathText([]) == ""
    ensures PathText(path + [Key(name)]) == PathText(path) + "." + name
    ensures PathText(path + [Index(at)]) == PathText(path) + "." + Decimal(at)
  {
    DeeperText(path, Key(name));
    DeeperText(path, Index(at));
    Assoc(PathText(path), ".", name);
    Assoc(PathText(path), ".", Decimal(at));
  }

  lemma {:induction false} DeeperText(path: Path, step: Step)
    ensures PathText(path + [step]) == PathText(path) + ("." + StepText(step))
  {
    if path == [] {
      assert [] + [step] == [step] && [step][1..] == [];
      assert "." + StepText(step) + "" == "." + StepText(step);
    } else {
      DeeperText(path[1..], step);
      TailOfConcat(path, [step]);
      Assoc("." + StepText(path[0]), PathText(path[1..]), "." + StepText(step));
    }
  }

  lemma MemberPlace(path: Path, name: string)
    ensures PlaceOf(path + [Key(name)]) == PlaceOf(path) + "." + name
  {
    DeeperPlace(path, name, 0);
    Assoc("response.body", PathText(path), "." + name);
    Assoc(PathText(path), ".", name);
    Assoc(PlaceOf(path), ".", name);
  }

  lemma ItemPlace(path: Path, at: nat)
    ensures PlaceOf(path + [Index(at)]) == PlaceOf(path) + "." + Decimal(at)
  {
    DeeperPlace(path, "", at);
    Assoc("response.body", PathText(path), "." + Decimal(at));
    Assoc(PathText(path), ".", Decimal(at));
    Assoc(PlaceOf(path), ".", Decimal(at));
  }

  function Reported(errors: set<SchemaError>): set<Violation> { set e | e in errors :: ToViolation(e) }

  lemma ReportedSum(a: set<SchemaError>, b: set<SchemaError>)
    ensures Reported(a + b) == Reported(a) + Reported(b)
  {
    forall v ensures v in Reported(a + b) <==> v in Reported(a) + Reported(b) {
      if v in Reported(a) {
        var e :| e in a && ToViolation(e) == v;
        assert e in a + b;
      }
      if v in Reported(b) {
        var e :| e in b && ToViolation(e) == v;
        assert e in a + b;
      }
    }
  }

  lemma ReportedWhen(failed: bool, path: Path, keyword: string, kind: ViolationKind)
    requires KindOf(keyword) == kind
    ensures Reported(When(failed, path, keyword)) == if failed then {Violation(kind, PlaceOf(path))} else {}
  {
    if failed { assert ToViolation(SchemaError(path, keyword, "")) in Reported(When(failed, path, keyword)); }
  }

  // ----- devices -----

  predicate IsWhole(v: Json) { v.JInt? || (v.JFloat? && v.r == v.r.Floor as real) }

  function NumberDefects(place: string, v: Json): set<Violation> {
    if IsWhole(v) then {} else {Violation(SchemaWrongType, place)}
  }

  function NameDefects(place: string, v: Json): set<Violation> {
    if !v.JStr? then {Violation(SchemaWrongType, place)}
    else if 1 <= |v.s| <= 64 then {}
    else {Violation(SchemaInvalid, place)}
  }

  function StatusDefects(place: string, v: Json): set<Violation> {
    (if v.JStr? then {} else {Violation(SchemaWrongType, place)})
    + if v in {JStr("online"), JStr("offline"), JStr("degraded")} then {} else {Violation(SchemaEnum, place)}
  }

  /** What is wrong with a value that stands where a device should. */
  function DeviceDefects(place: string, v: Json): set<Violation> {
    if !v.JObj? then {Violation(SchemaWrongType, place)}
    else
      (if {"id", "name", "status"} <= v.m.Keys then {} else {Violation(SchemaMissingField, place)})
      + (if "id" in v.m then NumberDefects(place + ".id", v.m["id"]) else {})
      + (if "name" in v.m then NameDefects(place + ".name", v.m["name"]) else {})
      + if "status" in v.m then StatusDefects(place + ".status", v.m["status"]) else {}
  }

  lemma NumberReported(v: Json, path: Path)
    ensures Reported(Errors(C.Typed("integer"), v, path)) == NumberDefects(PlaceOf(path), v)
  {
    TypedErrors("integer", v, path);
    ReportedWhen(!HasType("integer", v), path, "type", SchemaWrongType);
  }

  lemma NameLocalErrors(v: Json, path: Path)
    ensures LocalErrors(C.NameSchema().m, v, path)
            == When(!v.JStr?, path, "type")
               + When(v.JStr? && |v.s| < 1, path, "minLength") + When(v.JStr? && |v.s| > 64, path, "maxLength")
  {
  }

  lemma NameReported(v: Json, path: Path)
    ensures Reported(Errors(C.NameSchema(), v, path)) == NameDefects(PlaceOf(path), v)
  {
    FlatErrors(C.NameSchema().m, v, path);
    NameLocalErrors(v, path);
    var a, b, c := When(!v.JStr?, path, "type"), When(v.JStr? && |v.s| < 1, path, "minLength"),
      When(v.JStr? && |v.s| > 64, path, "maxLength");
    ReportedSums({}, a, b, c);
    assert {} + (a + b + c) == a + b + c;
    NameParts(v, path);
  }

  lemma NameParts(v: Json, path: Path)
    ensures Reported({}) == {}
    ensures Reported(When(!v.JStr?, path, "type"))
            == if v.JStr? then {} else {Violation(SchemaWrongType, PlaceOf(path))}
    ensures Reported(When(v.JStr? && |v.s| < 1, path, "minLength"))
            == if v.JStr? && |v.s| < 1 then {Violation(SchemaInvalid, PlaceOf(path))} else {}
    ensures Reported(When(v.JStr? && |v.s| > 64, path, "maxLength"))
            == if v.JStr? && |v.s| > 64 then {Violation(SchemaInvalid, PlaceOf(path))} else {}
  {
    ReportedWhen(!v.JStr?, path, "type", SchemaWrongType);
    ReportedWhen(v.JStr? && |v.s| < 1, path, "minLength", SchemaInvalid);
    ReportedWhen(v.JStr? && |v.s| > 64, path, "maxLength", SchemaInvalid);
  }

  lemma StatusAllowed(v: Json)
    ensures EnumAllows(StatusEnum(), v) <==> v in {JStr("online"), JStr("offline"), JStr("degraded")}
  {
    var names := StatusEnum().items;
    assert names[0] == JStr("online") && names[1] == JStr("offline") && names[2] == JStr("degraded");
    forall i | 0 <= i < 3 ensures SchemaEqual(names[i], v) <==> names[i] == v {
    }
  }

  lemma StatusReported(v: Json, path: Path)
    ensures Reported(Errors(C.StatusOut(), v, path)) == StatusDefects(PlaceOf(path), v)
  {
    StatusErrors(v, path);
    StatusLocals(v, path);
    StatusAllowed(v);
    ReportedSum(When(!v.JStr?, path, "type"), When(!EnumAllows(StatusEnum(), v), path, "enum"));
    ReportedWhen(!v.JStr?, path, "type", SchemaWrongType);
    ReportedWhen(!EnumAllows(StatusEnum(), v), path, "enum", SchemaEnum);
  }

  lemma MissingReported(name: string, m: map<string, Json>, path: Path)
    ensures Reported(B.Gone(name, m, path)) == if name in m then {} else {Violation(SchemaMissingField, PlaceOf(path))}
  {
    if name !in m { assert ToViolation(SchemaError(path, "required", name)) in Reported(B.Gone(name, m, path)); }
  }

  lemma NumberAt(name: string, m: map<string, Json>, path: Path)
    ensures Reported(B.ErrorsAt(name, C.Typed("integer"), m, path))
            == if name in m then NumberDefects(PlaceOf(path) + "." + name, m[name]) else {}
  {
    MemberPlace(path, name);
    if name in m {
      NumberReported(m[name], path + [Key(name)]);
    }
  }

  lemma NameAt(m: map<string, Json>, path: Path, name: string)
    ensures Reported(B.ErrorsAt(name, C.NameSchema(), m, path))
            == if name in m then NameDefects(PlaceOf(path) + "." + name, m[name]) else {}
  {
    MemberPlace(path, name);
    if name in m {
      NameReported(m[name], path + [Key(name)]);
    }
  }

  lemma StatusAt(m: map<string, Json>, path: Path, name: string)
    ensures Reported(B.ErrorsAt(name, C.StatusOut(), m, path))
            == if name in m then StatusDefects(PlaceOf(path) + "." + name, m[name]) else {}
  {
    MemberPlace(path, name);
    if name in m {
      StatusReported(m[name], path + [Key(name)]);
    }
  }

  lemma NamesReported(m: map<string, Json>, path: Path)
    ensures Reported(B.Gone("id", m, path) + B.Gone("name", m, path) + B.Gone("status", m, path))
            == if {"id", "name", "status"} <= m.Keys then {} else {Violation(SchemaMissingField, PlaceOf(path))}
  {
    ReportedSum(B.Gone("id", m, path) + B.Gone("name", m, path), B.Gone("status", m, path));
    ReportedSum(B.Gone("id", m, path), B.Gone("name", m, path));
    MissingReported("id", m, path);
    MissingReported("name", m, path);
    MissingReported("status", m, path);
  }

  lemma ReportedSums(missing: set<SchemaError>, a: set<SchemaError>, b: set<SchemaError>, c: set<SchemaError>)
    ensures Reported(missing + (a + b + c)) == Reported(missing) + Reported(a) + Reported(b) + Reported(c)
  {
    ReportedSum(missing, a + b + c);
    ReportedSum(a + b, c);
    ReportedSum(a, b);
  }

  /** The errors of an object read as a device, in four parts. */
  lemma DeviceParts(m: map<string, Json>, path: Path)
    returns (missing: set<SchemaError>, a: set<SchemaError>, b: set<SchemaError>, c: set<SchemaError>)
    ensures Errors(C.DeviceOut(), JObj(m), path) == missing + (a + b + c)
    ensures Reported(missing)
            == if {"id", "name", "status"} <= m.Keys then {} else {Violation(SchemaMissingField, PlaceOf(path))}
    ensures Reported(a) == if "id" in m then NumberDefects(PlaceOf(path) + ".id", m["id"]) else {}
    ensures Reported(b) == if "name" in m then NameDefects(PlaceOf(path) + ".name", m["name"]) else {}
    ensures Reported(c) == if "status" in m then StatusDefects(PlaceOf(path) + ".status", m["status"]) else {}
  {
    B.DeviceErrors(m, path);
    missing := B.Gone("id", m, path) + B.Gone("name", m, path) + B.Gone("status", m, path);
    a := B.ErrorsAt("id", C.Typed("integer"), m, path);
    b := B.ErrorsAt("name", C.NameSchema(), m, path);
    c := B.ErrorsAt("status", C.StatusOut(), m, path);
    NamesReported(m, path);
    MembersReported(m, path);
  }

  lemma MembersReported(m: map<string, Json>, path: Path)
    ensures Reported(B.ErrorsAt("id", C.Typed("integer"), m, path))
            == if "id" in m then NumberDefects(PlaceOf(path) + ".id", m["id"]) else {}
    ensures Reported(B.ErrorsAt("name", C.NameSchema(), m, path))
            == if "name" in m then NameDefects(PlaceOf(path) + ".name", m["name"]) else {}
    ensures Reported(B.ErrorsAt("status", C.StatusOut(), m, path))
            == if "status" in m then StatusDefects(PlaceOf(path) + ".status", m["status"]) else {}
  {
    NumberAt("id", m, path);
    NameAt(m, path, "name");
    StatusAt(m, path, "status");
    Dotted(PlaceOf(path));
  }

  lemma Dotted(place: string)
    ensures place + "." + "id" == place + ".id" && place + "." + "name" == place + ".name"
    ensures place + "." + "status" == place + ".status"
  {
    Assoc(place, ".", "id");
    Assoc(place, ".", "name");
    Assoc(place, ".", "status");
    assert "." + "id" == ".id" && "." + "name" == ".name" && "." + "status" == ".status";
  }

  lemma ObjectReported(m: map<string, Json>, path: Path)
    ensures Reported(Errors(C.DeviceOut(), JObj(m), path)) == DeviceDefects(PlaceOf(path), JObj(m))
  {
    var missing, a, b, c := DeviceParts(m, path);
    ReportedSums(missing, a, b, c);
  }

  /** A schema for objects reports any other value for its type and nothing else. */
  lemma NoObjectReported(required: seq<string>, properties: map<string, Json>, v: Json, path: Path)
    requires !v.JObj?
    ensures Reported(Errors(C.ObjectSchema(required, properties), v, path))
            == {Violation(SchemaWrongType, PlaceOf(path))}
  {
    var s := C.ObjectSchema(required, properties);
    ObjectKeys(required, properties);
    NoObjectErrors(s.m, required, properties, v, path);
    ReportedWhen(true, path, "type", SchemaWrongType);
  }

  lemma NoObjectErrors(s: map<string, Json>, required: seq<string>, properties: map<string, Json>, v: Json, path: Path)
    requires ObjectLike(s, required, properties) && !v.JObj?
    ensures Errors(JObj(s), v, path) == When(true, path, "type")
  {
    LacksMost(s);
    assert LocalErrors(s, v, path) == When(true, path, "type");
    AddUp(s, v, path, When(true, path, "type"), {});
  }

  /** Any value at all, read as a device at any place: exactly these violations are reported. */
  lemma DeviceReported(v: Json, path: Path)
    ensures Reported(Errors(C.DeviceOut(), v, path)) == DeviceDefects(PlaceOf(path), v)
  {
    if v.JObj? {
      ObjectReported(v.m, path);
    } else {
      NoObjectReported(["id", "name", "status"],
        map["id" := C.Typed("integer"), "name" := C.NameSchema(), "status" := C.StatusOut()], v, path);
    }
  }

  /** So the contract's device is an object with a whole id, a name of 1 to 64 characters and one of three words. */
  lemma DeviceAccepted(m: map<string, Json>)
    ensures Accepts(C.DeviceOut(), JObj(m)) <==>
      && "id" in m && IsWhole(m["id"])
      && "name" in m && m["name"].JStr? && 1 <= |m["name"].s| <= 64
      && "status" in m && m["status"] in {JStr("online"), JStr("offline"), JStr("degraded")}
  {
    DeviceReported(JObj(m), []);
    NoErrorsMeansAccepts(C.DeviceOut(), JObj(m), []);
    NoneReported(Errors(C.DeviceOut(), JObj(m), []));
    NoDefects(PlaceOf([]), m);
  }

  lemma NoDefects(place: string, m: map<string, Json>)
    ensures DeviceDefects(place, JObj(m)) == {} <==>
      && "id" in m && IsWhole(m["id"])
      && "name" in m && m["name"].JStr? && 1 <= |m["name"].s| <= 64
      && "status" in m && m["status"] in {JStr("online"), JStr("offline"), JStr("degraded")}
  {
  }

  lemma NoneReported(errors: set<SchemaError>)
    ensures Reported(errors) == {} <==> errors == {}
  {
    if e :| e in errors { assert ToViolation(e) in Reported(errors); }
  }

  // ----- lists and pages of devices -----

  /** What is wrong with a value that stands where a list of devices should. */
  function ListDefects(place: string, v: Json): set<Violation> {
    if !v.JArr? then {Violation(SchemaWrongType, place)}
    else set i, d | 0 <= i < |v.items| && d in DeviceDefects(place + "." + Decimal(i), v.items[i]) :: d
  }

  lemma ArrayOfErrors(item: Json, v: Json, path: Path)
    ensures Errors(C.ArrayOf(item), v, path)
            == When(!v.JArr?, path, "type") + ItemErrors(C.ArrayOf(item), v, path)
  {
    ListLike(C.ArrayOf(item).m, v, path);
    ListLocals(item, v, path);
  }

  lemma ListLike(s: map<string, Json>, v: Json, path: Path)
    requires Lacks(s, ["$ref", "properties", "additionalProperties", "anyOf"])
    ensures Errors(JObj(s), v, path) == LocalErrors(s, v, path) + ItemErrors(JObj(s), v, path)
  {
    var a := ["$ref", "properties", "additionalProperties", "anyOf"];
    assert a[0] !in s && a[1] !in s && a[2] !in s && a[3] !in s;
  }

  lemma ListLocals(item: Json, v: Json, path: Path)
    ensures LocalErrors(map["type" := JStr("array"), "items" := item], v, path) == When(!v.JArr?, path, "type")
  {
  }

  /** Any value at all, read as a list of devices: each item is reported on at its own place. */
  lemma ListReported(v: Json, path: Path)
    ensures Reported(Errors(C.ArrayOf(C.DeviceOut()), v, path)) == ListDefects(PlaceOf(path), v)
  {
    ArrayOfErrors(C.DeviceOut(), v, path);
    if v.JArr? {
      EachReported(C.DeviceOut(), v.items, path);
    } else {
      ReportedWhen(true, path, "type", SchemaWrongType);
    }
  }

  lemma EachReported(item: Json, xs: seq<Json>, path: Path)
    requires item == C.DeviceOut()
    ensures Reported(ItemErrors(C.ArrayOf(item), JArr(xs), path)) == ListDefects(PlaceOf(path), JArr(xs))
  {
    var errors, defects := ItemErrors(C.ArrayOf(item), JArr(xs), path), ListDefects(PlaceOf(path), JArr(xs));
    forall i | 0 <= i < |xs|
      ensures Reported(Errors(item, xs[i], path + [Index(i)]))
              == DeviceDefects(PlaceOf(path) + "." + Decimal(i), xs[i])
    {
      DeviceReported(xs[i], path + [Index(i)]);
      ItemPlace(path, i);
    }
    forall d | d in Reported(errors) ensures d in defects {
      var e :| e in errors && ToViolation(e) == d;
      var i :| 0 <= i < |xs| && e in Errors(item, xs[i], path + [Index(i)]);
      assert d in Reported(Errors(item, xs[i], path + [Index(i)]));
    }
    forall d | d in defects ensures d in Reported(errors) {
      var i :| 0 <= i < |xs| && d in DeviceDefects(PlaceOf(path) + "." + Decimal(i), xs[i]);
      var e :| e in Errors(item, xs[i], path + [Index(i)]) && ToViolation(e) == d;
      assert e in errors;
    }
  }

  /** What is wrong with a value that stands where a page should. */
  function PageDefects(place: string, v: Json): set<Violation> {
    if !v.JObj? then {Violation(SchemaWrongType, place)}
    else
      (if {"items", "total", "limit", "offset"} <= v.m.Keys then {} else {Violation(SchemaMissingField, place)})
      + (if "items" in v.m then ListDefects(place + ".items", v.m["items"]) else {})
      + (if "total" in v.m then NumberDefects(place + ".total", v.m["total"]) else {})
      + (if "limit" in v.m then NumberDefects(place + ".limit", v.m["limit"]) else {})
      + if "offset" in v.m then NumberDefects(place + ".offset", v.m["offset"]) else {}
  }

  lemma ListAt(name: string, m: map<string, Json>, path: Path)
    ensures Reported(B.ErrorsAt(name, C.ArrayOf(C.DeviceOut()), m, path))
            == if name in m then ListDefects(PlaceOf(path) + "." + name, m[name]) else {}
  {
    MemberPlace(path, name);
    if name in m { ListReported(m[name], path + [Key(name)]); }
  }

  lemma FourMembers(a: string, b: string, c: string, d: string, sa: Json, s: Json, m: map<string, Json>, path: Path)
    requires a != b && a != c && a != d && b != c && b != d && c != d
    ensures MemberErrors(map[a := sa, b := s, c := s, d := s], m, path)
            == B.ErrorsAt(a, sa, m, path) + B.ErrorsAt(b, s, m, path) + B.ErrorsAt(c, s, m, path)
               + B.ErrorsAt(d, s, m, path)
  {
    B.ThreeMembers(a, b, c, sa, s, s, m, path);
    B.OneMoreMember(map[a := sa, b := s, c := s], d, s, m, path);
  }

  lemma FourNames(a: string, b: string, c: string, d: string, m: map<string, Json>, path: Path)
    ensures Reported(MissingErrors([a, b, c, d], m, path))
            == if a in m && b in m && c in m && d in m then {} else {Violation(SchemaMissingField, PlaceOf(path))}
  {
    var names, missing := [a, b, c, d], MissingErrors([a, b, c, d], m, path);
    assert names[0] == a && names[1] == b && names[2] == c && names[3] == d;
    forall i | 0 <= i < 4 && names[i] !in m
      ensures Violation(SchemaMissingField, PlaceOf(path)) in Reported(missing)
    {
      var e := SchemaError(path, "required", names[i]);
      assert e in missing && ToViolation(e) == Violation(SchemaMissingField, PlaceOf(path));
    }
    if a in m && b in m && c in m && d in m { assert missing == {}; }
  }

  lemma FourSums(missing: set<SchemaError>, a: set<SchemaError>, b: set<SchemaError>, c: set<SchemaError>,
      d: set<SchemaError>)
    ensures Reported(missing + (a + b + c + d))
            == Reported(missing) + Reported(a) + Reported(b) + Reported(c) + Reported(d)
  {
    ReportedSum(missing, a + b + c + d);
    ReportedSum(a + b + c, d);
    ReportedSum(a + b, c);
    ReportedSum(a, b);
  }

  lemma PageDots(place: string)
    ensures place + "." + "items" == place + ".items" && place + "." + "total" == place + ".total"
    ensures place + "." + "limit" == place + ".limit" && place + "." + "offset" == place + ".offset"
  {
    Assoc(place, ".", "items");
    Assoc(place, ".", "total");
    Assoc(place, ".", "limit");
    Assoc(place, ".", "offset");
    assert "." + "items" == ".items" && "." + "total" == ".total";
    assert "." + "limit" == ".limit" && "." + "offset" == ".offset";
  }

  lemma PageMembers(m: map<string, Json>, path: Path)
    ensures Reported(B.ErrorsAt("items", C.ArrayOf(C.DeviceOut()), m, path))
            == if "items" in m then ListDefects(PlaceOf(path) + ".items", m["items"]) else {}
    ensures Reported(B.ErrorsAt("total", C.Typed("integer"), m, path))
            == if "total" in m then NumberDefects(PlaceOf(path) + ".total", m["total"]) else {}
    ensures Reported(B.ErrorsAt("limit", C.Typed("integer"), m, path))
            == if "limit" in m then NumberDefects(PlaceOf(path) + ".limit", m["limit"]) else {}
    ensures Reported(B.ErrorsAt("offset", C.Typed("integer"), m, path))
            == if "offset" in m then NumberDefects(PlaceOf(path) + ".offset", m["offset"]) else {}
  {
    PageDots(PlaceOf(path));
    ListAt("items", m, path);
    NumberAt("total", m, path);
    NumberAt("limit", m, path);
    NumberAt("offset", m, path);
  }

  /** The errors of an object read as a page, in five parts. */
  lemma PageParts(m: map<string, Json>, path: Path)
    returns (missing: set<SchemaError>, a: set<SchemaError>, b: set<SchemaError>, c: set<SchemaError>,
        d: set<SchemaError>)
    ensures Errors(C.PageSchema(C.DeviceOut()), JObj(m), path) == missing + (a + b + c + d)
    ensures Reported(missing)
            == if {"items", "total", "limit", "offset"} <= m.Keys then {}
               else {Violation(SchemaMissingField, PlaceOf(path))}
    ensures Reported(a) == if "items" in m then ListDefects(PlaceOf(path) + ".items", m["items"]) else {}
    ensures Reported(b) == if "total" in m then NumberDefects(PlaceOf(path) + ".total", m["total"]) else {}
    ensures Reported(c) == if "limit" in m then NumberDefects(PlaceOf(path) + ".limit", m["limit"]) else {}
    ensures Reported(d) == if "offset" in m then NumberDefects(PlaceOf(path) + ".offset", m["offset"]) else {}
  {
    missing := MissingErrors(["items", "total", "limit", "offset"], m, path);
    a := B.ErrorsAt("items", C.ArrayOf(C.DeviceOut()), m, path);
    b := B.ErrorsAt("total", C.Typed("integer"), m, path);
    c := B.ErrorsAt("limit", C.Typed("integer"), m, path);
    d := B.ErrorsAt("offset", C.Typed("integer"), m, path);
    PageErrors(m, path);
    PageNames(m, path);
    PageMembers(m, path);
  }

  lemma PageNames(m: map<string, Json>, path: Path)
    ensures Reported(MissingErrors(["items", "total", "limit", "offset"], m, path))
            == if {"items", "total", "limit", "offset"} <= m.Keys then {}
               else {Violation(SchemaMissingField, PlaceOf(path))}
  {
    FourNames("items", "total", "limit", "offset", m, path);
  }

  lemma PageErrors(m: map<string, Json>, path: Path)
    ensures Errors(C.PageSchema(C.DeviceOut()), JObj(m), path)
            == MissingErrors(["items", "total", "limit", "offset"], m, path)
               + (B.ErrorsAt("items", C.ArrayOf(C.DeviceOut()), m, path)
                  + B.ErrorsAt("total", C.Typed("integer"), m, path)
                  + B.ErrorsAt("limit", C.Typed("integer"), m, path)
                  + B.ErrorsAt("offset", C.Typed("integer"), m, path))
  {
    FourMembers("items", "total", "limit", "offset", C.ArrayOf(C.DeviceOut()), C.Typed("integer"), m, path);
    ObjectErrors(["items", "total", "limit", "offset"],
      map["items" := C.ArrayOf(C.DeviceOut()), "total" := C.Typed("integer"),
        "limit" := C.Typed("integer"), "offset" := C.Typed("integer")], m, path);
  }

  lemma PageObjectReported(m: map<string, Json>, path: Path)
    ensures Reported(Errors(C.PageSchema(C.DeviceOut()), JObj(m), path)) == PageDefects(PlaceOf(path), JObj(m))
  {
    var missing, a, b, c, d := PageParts(m, path);
    FourSums(missing, a, b, c, d);
  }

  /** Any value at all, read as a page: exactly these violations are reported. */
  lemma PageReported(v: Json, path: Path)
    ensures Reported(Errors(C.PageSchema(C.DeviceOut()), v, path)) == PageDefects(PlaceOf(path), v)
  {
    if v.JObj? {
      PageObjectReported(v.m, path);
    } else {
      NoObjectReported(["items", "total", "limit", "offset"],
        map["items" := C.ArrayOf(C.DeviceOut()), "total" := C.Typed("integer"),
          "limit" := C.Typed("integer"), "offset" := C.Typed("integer")], v, path);
    }
  }

  // ----- errors and the health report -----

  function TextDefects(place: string, v: Json): set<Violation> {
    if v.JStr? then {} else {Violation(SchemaWrongType, place)}
  }

  /** What is wrong with a value that stands where the two texts of an error should. */
  function DetailDefects(place: string, v: Json): set<Violation> {
    if !v.JObj? then {Violation(SchemaWrongType, place)}
    else
      (if {"code", "message"} <= v.m.Keys then {} else {Violation(SchemaMissingField, place)})
      + (if "code" in v.m then TextDefects(place + ".code", v.m["code"]) else {})
      + if "message" in v.m then TextDefects(place + ".message", v.m["message"]) else {}
  }

  /** What is wrong with a value that stands where an error should. */
  function ErrorDefects(place: string, v: Json): set<Violation> {
    if !v.JObj? then {Violation(SchemaWrongType, place)}
    else if "error" !in v.m then {Violation(SchemaMissingField, place)}
    else DetailDefects(place + ".error", v.m["error"])
  }

  lemma TextReported(v: Json, path: Path)
    ensures Reported(Errors(C.Typed("string"), v, path)) == TextDefects(PlaceOf(path), v)
  {
    TypedErrors("string", v, path);
    ReportedWhen(!v.JStr?, path, "type", SchemaWrongType);
  }

  lemma TextAt(name: string, m: map<string, Json>, path: Path)
    ensures Reported(B.ErrorsAt(name, C.Typed("string"), m, path))
            == if name in m then TextDefects(PlaceOf(path) + "." + name, m[name]) else {}
  {
    MemberPlace(path, name);
    if name in m { TextReported(m[name], path + [Key(name)]); }
  }

  lemma TwoNames(a: string, b: string, m: map<string, Json>, path: Path)
    ensures Reported(MissingErrors([a, b], m, path))
            == if a in m && b in m then {} else {Violation(SchemaMissingField, PlaceOf(path))}
  {
    var names, missing := [a, b], MissingErrors([a, b], m, path);
    assert names[0] == a && names[1] == b;
    forall i | 0 <= i < 2 && names[i] !in m
      ensures Violation(SchemaMissingField, PlaceOf(path)) in Reported(missing)
    {
      var e := SchemaError(path, "required", names[i]);
      assert e in missing && ToViolation(e) == Violation(SchemaMissingField, PlaceOf(path));
    }
    if a in m && b in m { assert missing == {}; }
  }

  lemma TwoMembers(a: string, b: string, s: Json, m: map<string, Json>, path: Path)
    requires a != b
    ensures MemberErrors(map[a := s, b := s], m, path) == B.ErrorsAt(a, s, m, path) + B.ErrorsAt(b, s, m, path)
  {
    B.OneMoreMember(map[], a, s, m, path);
    B.OneMoreMember(map[a := s], b, s, m, path);
  }

  /** The errors of an object read as the two texts of an error, in three parts. */
  lemma DetailParts(m: map<string, Json>, path: Path)
    returns (missing: set<SchemaError>, a: set<SchemaError>, b: set<SchemaError>)
    ensures Errors(C.DetailSchema(), JObj(m), path) == missing + (a + b)
    ensures Reported(missing)
            == if "code" in m && "message" in m then {} else {Violation(SchemaMissingField, PlaceOf(path))}
    ensures Reported(a) == if "code" in m then TextDefects(PlaceOf(path) + "." + "code", m["code"]) else {}
    ensures Reported(b) == if "message" in m then TextDefects(PlaceOf(path) + "." + "message", m["message"]) else {}
  {
    missing := MissingErrors(["code", "message"], m, path);
    a := B.ErrorsAt("code", C.Typed("string"), m, path);
    b := B.ErrorsAt("message", C.Typed("string"), m, path);
    ObjectErrors(["code", "message"], map["code" := C.Typed("string"), "message" := C.Typed("string")], m, path);
    TwoMembers("code", "message", C.Typed("string"), m, path);
    TwoNames("code", "message", m, path);
    TextAt("code", m, path);
    TextAt("message", m, path);
  }

  lemma ErrorDots(place: string)
    ensures place + "." + "code" == place + ".code" && place + "." + "message" == place + ".message"
    ensures place + "." + "error" == place + ".error"
  {
    Assoc(place, ".", "code");
    Assoc(place, ".", "message");
    Assoc(place, ".", "error");
    assert "." + "code" == ".code" && "." + "message" == ".message" && "." + "error" == ".error";
  }

  lemma DetailReported(v: Json, path: Path)
    ensures Reported(Errors(C.DetailSchema(), v, path)) == DetailDefects(PlaceOf(path), v)
  {
    if v.JObj? {
      var missing, a, b := DetailParts(v.m, path);
      ReportedSum(missing, a + b);
      ReportedSum(a, b);
      ErrorDots(PlaceOf(path));
    } else {
      NoObjectReported(["code", "message"], map["code" := C.Typed("string"), "message" := C.Typed("string")], v, path);
    }
  }

  lemma DetailAt(name: string, m: map<string, Json>, path: Path)
    ensures Reported(B.ErrorsAt(name, C.DetailSchema(), m, path))
            == if name in m then DetailDefects(PlaceOf(path) + "." + name, m[name]) else {}
  {
    MemberPlace(path, name);
    if name in m { DetailReported(m[name], path + [Key(name)]); }
  }

  lemma ErrorMember(name: string, s: Json, m: map<string, Json>, path: Path)
    ensures Errors(C.ObjectSchema([name], map[name := s]), JObj(m), path)
            == B.Gone(name, m, path) + B.ErrorsAt(name, s, m, path)
  {
    ObjectErrors([name], map[name := s], m, path);
    B.OneMoreMember(map[], name, s, m, path);
    assert [name][0] == name;
    assert MissingErrors([name], m, path) == B.Gone(name, m, path);
  }

  /** Any value at all, read as an error: exactly these violations are reported. */
  lemma ErrorReported(v: Json, path: Path)
    ensures Reported(Errors(C.ErrorSchema(C.DetailSchema()), v, path)) == ErrorDefects(PlaceOf(path), v)
  {
    if v.JObj? {
      ErrorMember("error", C.DetailSchema(), v.m, path);
      ReportedSum(B.Gone("error", v.m, path), B.ErrorsAt("error", C.DetailSchema(), v.m, path));
      MissingReported("error", v.m, path);
      DetailAt("error", v.m, path);
      ErrorDots(PlaceOf(path));
    } else {
      NoObjectReported(["error"], map["error" := C.DetailSchema()], v, path);
    }
  }

  /** What is wrong with a value that stands where the health report should: members that are no texts. */
  function ReportDefects(place: string, v: Json): set<Violation> {
    if !v.JObj? then {Violation(SchemaWrongType, place)}
    else set k, d | k in v.m && d in TextDefects(place + "." + k, v.m[k]) :: d
  }

  lemma HealthErrors(s: Json, v: Json, path: Path)
    ensures Errors(JObj(map["type" := JStr("object"), "additionalProperties" := s]), v, path)
            == When(!v.JObj?, path, "type")
               + ExtraErrors(JObj(map["type" := JStr("object"), "additionalProperties" := s]), v, path)
  {
    ReportLike(map["type" := JStr("object"), "additionalProperties" := s], v, path);
    ReportLocals(s, v, path);
  }

  lemma ReportLike(s: map<string, Json>, v: Json, path: Path)
    requires Lacks(s, ["$ref", "properties", "items", "anyOf"])
    ensures Errors(JObj(s), v, path) == LocalErrors(s, v, path) + ExtraErrors(JObj(s), v, path)
  {
    var a := ["$ref", "properties", "items", "anyOf"];
    assert a[0] !in s && a[1] !in s && a[2] !in s && a[3] !in s;
  }

  lemma ReportLocals(s: Json, v: Json, path: Path)
    ensures LocalErrors(map["type" := JStr("object"), "additionalProperties" := s], v, path)
            == When(!v.JObj?, path, "type")
  {
  }

  lemma OthersReported(s: Json, m: map<string, Json>, path: Path)
    requires s == C.Typed("string")
    ensures Reported(ExtraErrors(JObj(map["type" := JStr("object"), "additionalProperties" := s]), JObj(m), path))
            == ReportDefects(PlaceOf(path), JObj(m))
  {
    var schema := map["type" := JStr("object"), "additionalProperties" := s];
    var errors, defects := ExtraErrors(JObj(schema), JObj(m), path), ReportDefects(PlaceOf(path), JObj(m));
    assert Extras(schema, JObj(m)) == m.Keys;
    forall k | k in m
      ensures Reported(Errors(s, m[k], path + [Key(k)])) == TextDefects(PlaceOf(path) + "." + k, m[k])
    {
      TextReported(m[k], path + [Key(k)]);
      MemberPlace(path, k);
    }
    forall d | d in Reported(errors) ensures d in defects {
      var e :| e in errors && ToViolation(e) == d;
      var k :| k in m && e in Errors(s, m[k], path + [Key(k)]);
      assert d in Reported(Errors(s, m[k], path + [Key(k)]));
    }
    forall d | d in defects ensures d in Reported(errors) {
      var k :| k in m && d in TextDefects(PlaceOf(path) + "." + k, m[k]);
      var e :| e in Errors(s, m[k], path + [Key(k)]) && ToViolation(e) == d;
      assert e in errors;
    }
  }

  lemma HealthReported(v: Json, path: Path)
    ensures Reported(Errors(C.HealthSchema(), v, path)) == ReportDefects(PlaceOf(path), v)
  {
    HealthErrors(C.Typed("string"), v, path);
    if v.JObj? {
      OthersReported(C.Typed("string"), v.m, path);
    } else {
      ReportedWhen(true, path, "type", SchemaWrongType);
    }
  }

  /** What is wrong with a body of each kind. */
  function BodyDefects(kind: C.BodyKind, v: Json): set<Violation> {
    match kind
    case ADevice => DeviceDefects("response.body", v)
    case APage => PageDefects("response.body", v)
    case AList => ListDefects("response.body", v)
    case AnError => ErrorDefects("response.body", v)
    case AReport => ReportDefects("response.body", v)
  }

  lemma BodyReported(kind: C.BodyKind, v: Json)
    ensures Reported(Errors(C.ResolvedBody(kind), v, [])) == BodyDefects(kind, v)
  {
    assert PlaceOf([]) == "response.body";
    match kind
    case ADevice => DeviceReported(v, []);
    case APage => PageReported(v, []);
    case AList => ListReported(v, []);
    case AnError => ErrorReported(v, []);
    case AReport => HealthReported(v, []);
  }

  // ----- the kind of each keyword -----

  /** How a failing keyword is reported: the three with a kind of their own, and the rest. */
  lemma KeywordReported(keyword: string, j: Json, v: Json, path: Path)
    requires keyword in K.PLAIN_KEYWORDS && !Accepts(K.Only(keyword, j), v)
    ensures Reported(Errors(K.Only(keyword, j), v, path))
            == {Violation(if keyword == "type" then SchemaWrongType
                          else if keyword == "enum" then SchemaEnum
                          else SchemaInvalid, PlaceOf(path))}
  {
    K.FailureIsNamed(keyword, j, v, path);
    ReportedOne(SchemaError(path, keyword, ""));
    PlainKind(keyword);
  }

  lemma PlainKind(keyword: string)
    requires keyword in K.PLAIN_KEYWORDS
    ensures KindOf(keyword)
            == if keyword == "type" then SchemaWrongType else if keyword == "enum" then SchemaEnum else SchemaInvalid
  {
  }

  lemma ReportedOne(e: SchemaError)
    ensures Reported({e}) == {ToViolation(e)}
  {
    assert ToViolation(e) in Reported({e});
  }

  /** Missing and unexpected members have kinds of their own as well. */
  lemma MembersReportedAs(names: seq<string>, m: map<string, Json>, path: Path)
    ensures Reported(Errors(K.Only("required", K.Texts(names)), JObj(m), path))
            == if forall name | name in names :: name in m then {} else {Violation(SchemaMissingField, PlaceOf(path))}
    ensures Reported(Errors(K.Only("additionalProperties", JBool(false)), JObj(m), path))
            == if m == map[] then {} else {Violation(SchemaUnexpectedField, PlaceOf(path))}
  {
    K.MissingIsNamed(names, m, path);
    K.ExtrasAreNamed(JObj(m), path);
    ReportedOne(SchemaError(path, "additionalProperties", ""));
    var missing := Errors(K.Only("required", K.Texts(names)), JObj(m), path);
    forall name | name in names && name !in m
      ensures Violation(SchemaMissingField, PlaceOf(path)) in Reported(missing)
    {
      assert ToViolation(SchemaError(path, "required", name)) == Violation(SchemaMissingField, PlaceOf(path));
    }
  }

  // ----- what the contract promises of every response -----

  /** The statuses that the contract declares for a method on a path, by the path's segments; none: no operation. */
  function Statuses(ps: seq<string>, m: string): set<nat> {
    if |ps| < 2 || ps[0] != "" then {}
    else if ps[1] == "health" then if |ps| == 2 && m == "GET" then {200} else {}
    else if ps[1] != "devices" then {}
    else if |ps| == 2 then if m == "GET" then {200, 422} else if m == "POST" then {201, 400, 409, 422} else {}
    else if ps[2] == "" then {}
    else if |ps| == 3 then
      if m == "GET" then (if ps[2] == "search" then {200, 422} else {200, 404, 422})
      else if ps[2] == "search" then {}
      else if m == "PUT" then {200, 400, 404, 422}
      else if m == "DELETE" then {204, 404, 422}
      else {}
    else if |ps| == 4 && ps[3] == "status" && m == "PATCH" then {200, 400, 404, 409, 422}
    else {}
  }

  function StatusesOf(name: C.OpName): set<nat> {
    match name
    case AtHealth => {200}
    case AtList => {200, 422}
    case AtCreate => {201, 400, 409, 422}
    case AtSearch => {200, 422}
    case AtGet => {200, 404, 422}
    case AtReplace => {200, 400, 404, 422}
    case AtDelete => {204, 404, 422}
    case AtState => {200, 400, 404, 409, 422}
  }

  lemma SameDecimal(a: nat, b: nat)
    ensures Decimal(a) == Decimal(b) <==> a == b
  {
    ParseDecimal(a);
    ParseDecimal(b);
  }

  lemma StatusTexts(status: nat)
    ensures Decimal(status) == "200" <==> status == 200
    ensures Decimal(status) == "201" <==> status == 201
    ensures Decimal(status) == "204" <==> status == 204
    ensures Decimal(status) == "400" <==> status == 400
    ensures Decimal(status) == "404" <==> status == 404
    ensures Decimal(status) == "409" <==> status == 409
    ensures Decimal(status) == "422" <==> status == 422
  {
    StatusNames();
    SameDecimal(status, 200);
    SameDecimal(status, 201);
    SameDecimal(status, 204);
    SameDecimal(status, 400);
    SameDecimal(status, 404);
    SameDecimal(status, 409);
    SameDecimal(status, 422);
  }

  /** What is declared under a status: the operation's own body, an error, or nothing. */
  function DeclaredAt(t: string, kind: C.BodyKind): Json {
    if t == "204" then C.NoContent()
    else C.WithBody(C.DeclaredBody(if t == "200" || t == "201" then kind else C.AnError))
  }

  /** These texts stand in the table, each with what is declared under it. */
  ghost predicate Holds(responses: map<string, Json>, texts: seq<string>, kind: C.BodyKind) {
    && (forall t :: t in responses <==> t in texts)
    && forall t | t in texts :: responses[t] == DeclaredAt(t, kind)
  }

  lemma OneText(t: string, kind: C.BodyKind)
    ensures Holds(map[t := DeclaredAt(t, kind)], [t], kind)
  {
  }

  lemma TwoTexts(a: map<string, Json>, b: map<string, Json>, ta: string, tb: string, kind: C.BodyKind)
    requires Holds(a, [ta], kind) && Holds(b, [tb], kind)
    ensures Holds(a + b, [ta, tb], kind)
  {
  }

  lemma OneMoreText(a: map<string, Json>, b: map<string, Json>, texts: seq<string>, all: seq<string>, t: string,
      kind: C.BodyKind)
    requires Holds(a, texts, kind) && Holds(b, [t], kind) && all == texts + [t]
    ensures Holds(a + b, all, kind)
  {
  }

  lemma ThreeTexts(a: map<string, Json>, b: map<string, Json>, c: map<string, Json>, ta: string, tb: string, tc: string,
      kind: C.BodyKind)
    requires Holds(a, [ta], kind) && Holds(b, [tb], kind) && Holds(c, [tc], kind)
    ensures Holds(a + b + c, [ta, tb, tc], kind)
  {
    TwoTexts(a, b, ta, tb, kind);
    OneMoreText(a + b, c, [ta, tb], [ta, tb, tc], tc, kind);
  }

  lemma FourTexts(a: map<string, Json>, b: map<string, Json>, c: map<string, Json>, d: map<string, Json>, ta: string,
      tb: string, tc: string, td: string, kind: C.BodyKind)
    requires Holds(a, [ta], kind) && Holds(b, [tb], kind) && Holds(c, [tc], kind) && Holds(d, [td], kind)
    ensures Holds(a + b + c + d, [ta, tb, tc, td], kind)
  {
    ThreeTexts(a, b, c, ta, tb, tc, kind);
    OneMoreText(a + b + c, d, [ta, tb, tc], [ta, tb, tc, td], td, kind);
  }

  lemma FiveTexts(a: map<string, Json>, b: map<string, Json>, c: map<string, Json>, d: map<string, Json>,
      e: map<string, Json>, ta: string, tb: string, tc: string, td: string, te: string, kind: C.BodyKind)
    requires Holds(a, [ta], kind) && Holds(b, [tb], kind) && Holds(c, [tc], kind) && Holds(d, [td], kind)
    requires Holds(e, [te], kind)
    ensures Holds(a + b + c + d + e, [ta, tb, tc, td, te], kind)
  {
    FourTexts(a, b, c, d, ta, tb, tc, td, kind);
    OneMoreText(a + b + c + d, e, [ta, tb, tc, td], [ta, tb, tc, td, te], te, kind);
  }

  lemma ProblemTexts(kind: C.BodyKind)
    ensures Holds(C.BadRequest(), ["400"], kind) && Holds(C.NotFound(), ["404"], kind)
    ensures Holds(C.Conflict(), ["409"], kind) && Holds(C.Unprocessable(), ["422"], kind)
  {
    OneText("400", kind);
    OneText("404", kind);
    OneText("409", kind);
    OneText("422", kind);
  }

  lemma DeleteTexts()
    ensures Holds(C.DeleteResponses(), ["204", "404", "422"], C.ADevice)
  {
    ProblemTexts(C.ADevice);
    OneText("204", C.ADevice);
    ThreeTexts(map["204" := DeclaredAt("204", C.ADevice)], C.NotFound(), C.Unprocessable(),
      "204", "404", "422", C.ADevice);
  }

  lemma HealthTexts()
    ensures Holds(C.HealthResponses(), ["200"], C.AReport)
  {
    OneText("200", C.AReport);
  }

  lemma ListTexts()
    ensures Holds(C.ListResponses(), ["200", "422"], C.APage)
  {
    ProblemTexts(C.APage);
    OneText("200", C.APage);
    TwoTexts(map["200" := DeclaredAt("200", C.APage)], C.Unprocessable(),
      "200", "422", C.APage);
  }

  lemma CreateTexts()
    ensures Holds(C.CreateResponses(), ["201", "400", "409", "422"], C.ADevice)
  {
    ProblemTexts(C.ADevice);
    OneText("201", C.ADevice);
    FourTexts(map["201" := DeclaredAt("201", C.ADevice)], C.BadRequest(), C.Conflict(), C.Unprocessable(),
      "201", "400", "409", "422", C.ADevice);
  }

  lemma SearchTexts()
    ensures Holds(C.SearchResponses(), ["200", "422"], C.AList)
  {
    ProblemTexts(C.AList);
    OneText("200", C.AList);
    TwoTexts(map["200" := DeclaredAt("200", C.AList)], C.Unprocessable(),
      "200", "422", C.AList);
  }

  lemma GetTexts()
    ensures Holds(C.GetResponses(), ["200", "404", "422"], C.ADevice)
  {
    ProblemTexts(C.ADevice);
    OneText("200", C.ADevice);
    ThreeTexts(map["200" := DeclaredAt("200", C.ADevice)], C.NotFound(), C.Unprocessable(),
      "200", "404", "422", C.ADevice);
  }

  lemma ReplaceTexts()
    ensures Holds(C.ReplaceResponses(), ["200", "400", "404", "422"], C.ADevice)
  {
    ProblemTexts(C.ADevice);
    OneText("200", C.ADevice);
    FourTexts(map["200" := DeclaredAt("200", C.ADevice)], C.BadRequest(), C.NotFound(), C.Unprocessable(),
      "200", "400", "404", "422", C.ADevice);
  }

  lemma SetStateTexts()
    ensures Holds(C.SetStateResponses(), ["200", "400", "404", "409", "422"], C.ADevice)
  {
    ProblemTexts(C.ADevice);
    OneText("200", C.ADevice);
    FiveTexts(map["200" := DeclaredAt("200", C.ADevice)], C.BadRequest(), C.NotFound(), C.Conflict(), C.Unprocessable(),
      "200", "400", "404", "409", "422", C.ADevice);
  }

  function TextsOf(name: C.OpName): seq<string> {
    match name
    case AtHealth => ["200"]
    case AtList => ["200", "422"]
    case AtCreate => ["201", "400", "409", "422"]
    case AtSearch => ["200", "422"]
    case AtGet => ["200", "404", "422"]
    case AtReplace => ["200", "400", "404", "422"]
    case AtDelete => ["204", "404", "422"]
    case AtState => ["200", "400", "404", "409", "422"]
  }

  /** What an operation answers with when all is well. */
  function OwnBody(name: C.OpName): C.BodyKind {
    match name
    case AtHealth => C.AReport
    case AtList => C.APage
    case AtSearch => C.AList
    case _ => C.ADevice
  }

  lemma TableTexts(name: C.OpName)
    ensures Holds(C.ResponseTable(name), TextsOf(name), OwnBody(name))
  {
    match name
    case AtHealth => HealthTexts();
    case AtList => ListTexts();
    case AtCreate => CreateTexts();
    case AtSearch => SearchTexts();
    case AtGet => GetTexts();
    case AtReplace => ReplaceTexts();
    case AtDelete => DeleteTexts();
    case AtState => SetStateTexts();
  }

  lemma StatusesAsTexts(name: C.OpName, status: nat, t: string)
    requires t == Decimal(status)
    ensures t in TextsOf(name) <==> status in StatusesOf(name)
    ensures t == "200" <==> status == 200
    ensures t == "201" <==> status == 201
    ensures t == "204" <==> status == 204
  {
    StatusTexts(status);
  }

  /** The kind of body declared under a status that is. */
  function KindAt(name: C.OpName, status: nat): C.BodyKind {
    if status == 200 || status == 201 then OwnBody(name) else C.AnError
  }

  /** The declared statuses of an operation, and what is declared under each. */
  lemma TableMeans(name: C.OpName, status: nat)
    ensures Decimal(status) in C.ResponseTable(name) <==> status in StatusesOf(name)
    ensures status in StatusesOf(name) ==>
      C.ResponseTable(name)[Decimal(status)]
      == if status == 204 then C.NoContent() else C.WithBody(C.DeclaredBody(KindAt(name, status)))
  {
    TableTexts(name);
    StatusesAsTexts(name, status, Decimal(status));
  }

  lemma NamedBySegments(r: Request)
    ensures NameFor(r).None? ==> Statuses(Split(r.path, '/'), r.httpMethod) == {}
    ensures NameFor(r).Some? ==> Statuses(Split(r.path, '/'), r.httpMethod) == StatusesOf(NameFor(r).value)
  {
    TemplatesDiffer();
  }

  /** A media type is read up to the first semicolon, without the white space around it; it may be absent. */
  lemma MediaTypeMeans(r: HttpResponse, before: string, mediaType: string, behind: string, parameters: string)
    requires ';' !in before && ';' !in mediaType && ';' !in behind
    requires IsBlank(before) && IsBlank(behind) && Stripped(mediaType)
    ensures "content-type" !in r.headers ==> r.ContentType() == ""
    ensures "content-type" in r.headers
            && (r.headers["content-type"] == before + mediaType + behind
                || r.headers["content-type"] == before + mediaType + behind + ";" + parameters) ==>
      r.ContentType() == mediaType
  {
    var t := before + mediaType + behind;
    SplitAtSeparator(t, parameters, ';');
    StripMeans(before, mediaType, behind);
  }

  /** The request as the response remembers it. */
  function RequestOf(r: HttpResponse): Request { Request(MethodOf(r), r.requestPath, map[], NoBody) }

  lemma NothingFound(c: Contract, r: HttpResponse)
    requires MatchPathTemplate(c.paths, r.requestPath).Some? ==>
      FindOperation(c, MethodOf(r), MatchPathTemplate(c.paths, r.requestPath).value).None?
    ensures CheckResponse(c, r) == [Violation(UnknownOperation, "request")]
  {
  }

  lemma FoundWith(c: Contract, r: HttpResponse, t: string, responses: map<string, Json>)
    requires MatchPathTemplate(c.paths, r.requestPath) == Some(t)
    requires FindOperation(c, MethodOf(r), t) == Some(C.Op(responses))
    ensures CheckResponse(c, r) == if Decimal(r.statusCode) in responses
                                   then BodyViolations(Content(responses[Decimal(r.statusCode)]), r)
                                   else [Violation(UndeclaredStatus, "response.status")]
  {
    OpResponses(responses);
  }

  /** The operation is looked up by the name that the contract has for it. */
  lemma FoundByName(r: HttpResponse) returns (name: Option<C.OpName>, responses: map<string, Json>)
    requires UpperCase(MethodOf(r)) && !EndsWithNewline(r.requestPath)
    ensures name == NameFor(RequestOf(r))
    ensures name.None? ==> CheckResponse(C.Pinned(), r) == [Violation(UnknownOperation, "request")]
    ensures name.Some? ==>
      && responses == C.ResponseTable(name.value)
      && CheckResponse(C.Pinned(), r) == if Decimal(r.statusCode) in responses
                                         then BodyViolations(Content(responses[Decimal(r.statusCode)]), r)
                                         else [Violation(UndeclaredStatus, "response.status")]
  {
    name, responses := NameFor(RequestOf(r)), map[];
    ContractSays(RequestOf(r));
    if name.Some? {
      responses := C.ResponseTable(name.value);
      FoundWith(C.Pinned(), r, MatchPathTemplate(C.Pinned().paths, r.requestPath).value, responses);
    } else {
      NothingFound(C.Pinned(), r);
    }
  }

  lemma BodyMeans(content: map<string, Json>, r: HttpResponse)
    requires content.Keys == {} || content.Keys == {"application/json"}
    ensures BodyViolations(content, r)
            == if content.Keys == {}
               then (if IsBlank(r.text) then [] else [Violation(UnexpectedBody, "response.body")])
               else (if r.ContentType() == "application/json" then []
                     else [Violation(WrongContentType, "response.headers.content-type")])
  {
    BlankIsEmpty(r.text);
    if content.Keys == {} { assert content == map[]; }
  }

  /**
    The contract check on any response, by the segments of its path and its method, GET unless it has
    one: an operation that is not declared; else a status that is not; else, to a 204, a body; else a
    media type other than JSON.
   */
  lemma ContractVerdict(r: HttpResponse, m: string)
    requires m == (if r.requestMethod == "" then "GET" else r.requestMethod)
    requires UpperCase(m) && !EndsWithNewline(r.requestPath)
    ensures CheckResponse(C.Pinned(), r)
            == var declared := Statuses(Split(r.requestPath, '/'), m);
               if declared == {} then [Violation(UnknownOperation, "request")]
               else if r.statusCode !in declared then [Violation(UndeclaredStatus, "response.status")]
               else if r.statusCode == 204 then
                 (if IsBlank(r.text) then [] else [Violation(UnexpectedBody, "response.body")])
               else if r.ContentType() == "application/json" then []
               else [Violation(WrongContentType, "response.headers.content-type")]
  {
    var name, responses := FoundByName(r);
    NamedBySegments(RequestOf(r));
    if name.Some? { NamedVerdict(r, name.value, responses); }
  }

  lemma NamedVerdict(r: HttpResponse, name: C.OpName, responses: map<string, Json>)
    requires responses == C.ResponseTable(name)
    ensures StatusesOf(name) != {}
    ensures Decimal(r.statusCode) in responses <==> r.statusCode in StatusesOf(name)
    ensures Decimal(r.statusCode) in responses ==>
      BodyViolations(Content(responses[Decimal(r.statusCode)]), r)
      == if r.statusCode == 204 then
           (if IsBlank(r.text) then [] else [Violation(UnexpectedBody, "response.body")])
         else if r.ContentType() == "application/json" then []
         else [Violation(WrongContentType, "response.headers.content-type")]
  {
    assert 422 in StatusesOf(name) || 200 in StatusesOf(name);
    TableMeans(name, r.statusCode);
    if Decimal(r.statusCode) in responses {
      ContentAt(name, r.statusCode, responses[Decimal(r.statusCode)]);
      BodyMeans(Content(responses[Decimal(r.statusCode)]), r);
    }
  }

  lemma ContentAt(name: C.OpName, status: nat, declared: Json)
    requires declared == if status == 204 then C.NoContent() else C.WithBody(C.DeclaredBody(KindAt(name, status)))
    ensures Content(declared).Keys == if status == 204 then {} else {"application/json"}
  {
    NoContentRead();
    WithBodyRead(C.DeclaredBody(KindAt(name, status)));
  }

  // ----- the whole verdict -----

  /** What is declared as the body of a response: by the operation that its request is for, and its status. */
  function DeclaredKind(k: Request, status: nat): Option<C.BodyKind> {
    match NameFor(k)
    case None => None
    case Some(name) => if status in StatusesOf(name) && status != 204 then Some(KindAt(name, status)) else None
  }

  lemma KindResolves(kind: C.BodyKind)
    ensures C.Becomes(C.Pinned().doc, C.DeclaredBody(kind), C.ResolvedBody(kind))
    ensures C.DeclaredBody(kind) != JNull
  {
    C.PinnedIsSound();
  }

  lemma NoOperationNoSchema(c: Contract, k: TestCase, r: HttpResponse)
    requires MatchPathTemplate(c.paths, k.request.path).Some? ==>
      FindOperation(c, k.request.httpMethod, MatchPathTemplate(c.paths, k.request.path).value).None?
    ensures SchemaFor(c, k, r) == NoSchema
  {
  }

  lemma SchemaByTable(c: Contract, k: TestCase, r: HttpResponse, t: string, responses: map<string, Json>)
    requires MatchPathTemplate(c.paths, k.request.path) == Some(t) && t != ""
    requires FindOperation(c, k.request.httpMethod, t) == Some(C.Op(responses))
    ensures Decimal(r.statusCode) !in responses ==> SchemaFor(c, k, r) == NoSchema
    ensures Decimal(r.statusCode) in responses && responses[Decimal(r.statusCode)] == C.NoContent() ==>
      SchemaFor(c, k, r) == NoSchema
  {
    OpResponses(responses);
    NoContentRead();
  }

  lemma SchemaByKind(c: Contract, k: TestCase, r: HttpResponse, t: string, responses: map<string, Json>, s: Json,
      out: Json)
    requires MatchPathTemplate(c.paths, k.request.path) == Some(t) && t != ""
    requires FindOperation(c, k.request.httpMethod, t) == Some(C.Op(responses))
    requires Decimal(r.statusCode) in responses && responses[Decimal(r.statusCode)] == C.WithBody(s)
    requires C.Becomes(c.doc, s, out) && s != JNull
    ensures SchemaFor(c, k, r) == Declared(out)
  {
    OpResponses(responses);
    WithBodyRead(s);
    SchemaFound(c, k.request.httpMethod, t, r.statusCode, C.Op(responses), s, out);
  }

  /** The schema that a body is held against. */
  lemma SchemaIs(k: TestCase, r: HttpResponse)
    requires UpperCase(k.request.httpMethod) && !EndsWithNewline(k.request.path)
    ensures SchemaFor(C.Pinned(), k, r)
            == match DeclaredKind(k.request, r.statusCode)
               case None => NoSchema
               case Some(kind) => Declared(C.ResolvedBody(kind))
  {
    ContractSays(k.request);
    match NameFor(k.request)
    case None => NoOperationNoSchema(C.Pinned(), k, r);
    case Some(name) =>
      var t := MatchPathTemplate(C.Pinned().paths, k.request.path).value;
      NamedSchema(k, r, name, t);
  }

  lemma NamedSchema(k: TestCase, r: HttpResponse, name: C.OpName, t: string)
    requires MatchPathTemplate(C.Pinned().paths, k.request.path) == Some(t) && t in C.Templates()
    requires FindOperation(C.Pinned(), k.request.httpMethod, t) == Some(C.Op(C.ResponseTable(name)))
    ensures SchemaFor(C.Pinned(), k, r)
            == if r.statusCode in StatusesOf(name) && r.statusCode != 204
               then Declared(C.ResolvedBody(KindAt(name, r.statusCode))) else NoSchema
  {
    TemplatesDiffer();
    OneOf(t);
    TableMeans(name, r.statusCode);
    var kind := KindAt(name, r.statusCode);
    KindResolves(kind);
    SchemaByTable(C.Pinned(), k, r, t, C.ResponseTable(name));
    if r.statusCode in StatusesOf(name) && r.statusCode != 204 {
      SchemaByKind(C.Pinned(), k, r, t, C.ResponseTable(name), C.DeclaredBody(kind), C.ResolvedBody(kind));
    }
  }

  function Members(vs: seq<Violation>): set<Violation> { set v | v in vs }

  lemma MembersAdd(a: seq<Violation>, b: seq<Violation>)
    ensures Members(a + b) == Members(a) + Members(b)
  {
  }

  lemma ListedMembers(es: seq<SchemaError>, errors: set<SchemaError>)
    requires Lists(es, errors)
    ensures Members(ToViolations(es)) == Reported(errors)
  {
    var vs := ToViolations(es);
    forall v | v in Members(vs) ensures v in Reported(errors) {
      var i :| 0 <= i < |es| && vs[i] == v;
      assert es[i] in errors;
    }
    forall v | v in Reported(errors) ensures v in Members(vs) {
      var e :| e in errors && ToViolation(e) == v;
      var i :| 0 <= i < |es| && es[i] == e;
      assert vs[i] == v;
    }
  }

  /** The parts of a verdict, in any order. */
  lemma VerdictParts(vs: seq<Violation>, c: Contract, k: TestCase, r: HttpResponse)
    requires !JudgingRaises(c, k, r) && IsVerdict(vs, c, k, r)
    ensures Members(vs)
            == Members(StatusViolations(k, r)) + Members(CheckResponse(c, r)) + Members(NotJsonViolations(c, k, r))
               + Reported(SchemaErrorsOf(c, k, r)) + Members(LastViolations(c, k, r))
  {
    var es :| Lists(es, SchemaErrorsOf(c, k, r))
      && vs == FirstViolations(c, k, r) + ToViolations(es) + LastViolations(c, k, r);
    MembersAdd(FirstViolations(c, k, r) + ToViolations(es), LastViolations(c, k, r));
    MembersAdd(FirstViolations(c, k, r), ToViolations(es));
    MembersAdd(StatusViolations(k, r) + CheckResponse(c, r), NotJsonViolations(c, k, r));
    MembersAdd(StatusViolations(k, r), CheckResponse(c, r));
    ListedMembers(es, SchemaErrorsOf(c, k, r));
  }

  /** What is wrong with a body, under what is declared and what the case expects; null is asked nothing. */
  function BodyPart(kind: Option<C.BodyKind>, es: seq<Expectation>, body: Option<Json>): set<Violation>
    requires body.Some? && body.value != JNull ==> !AnyRaises(body.value, es)
  {
    if kind == None && es == [] then {}
    else
      match body
      case None => {Violation(BodyNotJson, "response.body")}
      case Some(JNull) => {}
      case Some(v) => (if kind.Some? then BodyDefects(kind.value, v) else {}) + Members(AllFailures(v, es))
  }

  lemma NotJsonPart(c: Contract, k: TestCase, r: HttpResponse, body: Option<Json>)
    requires body == Loads(r.text)
    ensures Members(NotJsonViolations(c, k, r))
            == if (SchemaFor(c, k, r).Declared? || k.expectations != []) && body == None
               then {Violation(BodyNotJson, "response.body")} else {}
  {
    NotJsonList(c, k, r, body);
    OneMember(Violation(BodyNotJson, "response.body"));
  }

  lemma NotJsonList(c: Contract, k: TestCase, r: HttpResponse, body: Option<Json>)
    requires body == Loads(r.text)
    ensures NotJsonViolations(c, k, r)
            == if (SchemaFor(c, k, r).Declared? || k.expectations != []) && body == None
               then [Violation(BodyNotJson, "response.body")] else []
  {
  }

  lemma OneMember(v: Violation)
    ensures Members([v]) == {v} && Members([]) == {}
  {
  }

  lemma SchemaPart(c: Contract, k: TestCase, r: HttpResponse, body: Option<Json>, kind: Option<C.BodyKind>)
    requires body == Loads(r.text)
    requires SchemaFor(c, k, r) == if kind.Some? then Declared(C.ResolvedBody(kind.value)) else NoSchema
    ensures Reported(SchemaErrorsOf(c, k, r))
            == if kind.Some? && body.Some? && body.value != JNull then BodyDefects(kind.value, body.value) else {}
  {
    NoneReported({});
    if kind.Some? && body.Some? { BodyReported(kind.value, body.value); }
  }

  lemma LastPart(c: Contract, k: TestCase, r: HttpResponse, body: Option<Json>)
    requires body == Loads(r.text) && !JudgingRaises(c, k, r)
    ensures body.Some? && body.value != JNull ==> !AnyRaises(body.value, k.expectations)
    ensures Members(LastViolations(c, k, r))
            == if body.Some? && body.value != JNull then Members(AllFailures(body.value, k.expectations)) else {}
  {
  }

  lemma BodyIsJudged(c: Contract, k: TestCase, r: HttpResponse, body: Option<Json>, kind: Option<C.BodyKind>)
    requires body == Loads(r.text) && !JudgingRaises(c, k, r)
    requires SchemaFor(c, k, r) == if kind.Some? then Declared(C.ResolvedBody(kind.value)) else NoSchema
    ensures body.Some? && body.value != JNull ==> !AnyRaises(body.value, k.expectations)
    ensures Members(NotJsonViolations(c, k, r)) + Reported(SchemaErrorsOf(c, k, r)) + Members(LastViolations(c, k, r))
            == BodyPart(kind, k.expectations, body)
  {
    NotJsonPart(c, k, r, body);
    SchemaPart(c, k, r, body, kind);
    LastPart(c, k, r, body);
    PartsAdd(kind, k.expectations, body);
  }

  lemma PartsAdd(kind: Option<C.BodyKind>, es: seq<Expectation>, body: Option<Json>)
    requires body.Some? && body.value != JNull ==> !AnyRaises(body.value, es)
    ensures BodyPart(kind, es, body)
            == (if (kind.Some? || es != []) && body == None then {Violation(BodyNotJson, "response.body")} else {})
               + (if kind.Some? && body.Some? && body.value != JNull then BodyDefects(kind.value, body.value) else {})
               + if body.Some? && body.value != JNull then Members(AllFailures(body.value, es)) else {}
  {
  }

  lemma StatusPart(k: TestCase, r: HttpResponse)
    ensures Members(StatusViolations(k, r))
            == if r.statusCode == k.expectStatus then {} else {Violation(ExpectationFailed, "response.status")}
  {
  }

  /**
    The verdict on any response to any case under the pinned contract, in plain words: a status that is
    not the expected one; what the contract check says; and, where a body is declared or anything is
    expected of it, that it is no JSON, or what is wrong with it and which expectations it fails.
   */
  lemma WholeVerdict(k: TestCase, r: HttpResponse, vs: seq<Violation>)
    requires UpperCase(k.request.httpMethod) && !EndsWithNewline(k.request.path)
    requires !JudgingRaises(C.Pinned(), k, r) && IsVerdict(vs, C.Pinned(), k, r)
    ensures Members(vs)
            == (if r.statusCode == k.expectStatus then {} else {Violation(ExpectationFailed, "response.status")})
               + Members(CheckResponse(C.Pinned(), r))
               + BodyPart(DeclaredKind(k.request, r.statusCode), k.expectations, Loads(r.text))
  {
    SchemaIs(k, r);
    VerdictByParts(vs, C.Pinned(), k, r, DeclaredKind(k.request, r.statusCode));
  }

  lemma VerdictByParts(vs: seq<Violation>, c: Contract, k: TestCase, r: HttpResponse, kind: Option<C.BodyKind>)
    requires !JudgingRaises(c, k, r) && IsVerdict(vs, c, k, r)
    requires SchemaFor(c, k, r) == if kind.Some? then Declared(C.ResolvedBody(kind.value)) else NoSchema
    ensures Loads(r.text).Some? && Loads(r.text).value != JNull ==> !AnyRaises(Loads(r.text).value, k.expectations)
    ensures Members(vs)
            == (if r.statusCode == k.expectStatus then {} else {Violation(ExpectationFailed, "response.status")})
               + Members(CheckResponse(c, r)) + BodyPart(kind, k.expectations, Loads(r.text))
  {
    VerdictParts(vs, c, k, r);
    StatusPart(k, r);
    BodyIsJudged(c, k, r, Loads(r.text), kind);
  }

  lemma {:induction false} SomeRaises(body: Json, es: seq<Expectation>)
    ensures AnyRaises(body, es) <==> exists i :: 0 <= i < |es| && Raises(body, es[i])
  {
    if es != [] {
      var init := es[..|es| - 1];
      SomeRaises(body, init);
      assert forall i | 0 <= i < |init| :: init[i] == es[i];
      if i :| 0 <= i < |init| && Raises(body, init[i]) { assert Raises(body, es[i]); }
      if i :| 0 <= i < |es| && Raises(body, es[i]) { assert i == |es| - 1 || Raises(body, init[i]); }
    }
  }

  /** A length is asked of a value that is there and has none. */
  predicate AsksLengthInVain(body: Json, e: Expectation) {
    && (e.minLength.Some? || e.maxLength.Some?)
    && match Dig(body, e.path)
       case None => false
       case Some(v) => !v.JStr? && !v.JArr? && !v.JObj?
  }

  /** Under the pinned contract judging raises only for an expectation: one that asks a length of a number, say. */
  lemma RaisesIff(k: TestCase, r: HttpResponse)
    requires UpperCase(k.request.httpMethod) && !EndsWithNewline(k.request.path)
    ensures JudgingRaises(C.Pinned(), k, r) <==>
      && Loads(r.text).Some? && Loads(r.text).value != JNull
      && exists i :: 0 <= i < |k.expectations| && AsksLengthInVain(Loads(r.text).value, k.expectations[i])
  {
    SchemaIs(k, r);
    RaisesOn(C.Pinned(), k, r, Loads(r.text));
  }

  lemma RaisesOn(c: Contract, k: TestCase, r: HttpResponse, body: Option<Json>)
    requires body == Loads(r.text) && !SchemaFor(c, k, r).Unresolvable?
    ensures JudgingRaises(c, k, r) <==>
      && body.Some? && body.value != JNull
      && exists i :: 0 <= i < |k.expectations| && AsksLengthInVain(body.value, k.expectations[i])
  {
    if body.Some? {
      SomeRaises(body.value, k.expectations);
      InVain(body.value, k.expectations);
    }
  }

  lemma InVain(body: Json, es: seq<Expectation>)
    ensures forall i | 0 <= i < |es| :: Raises(body, es[i]) <==> AsksLengthInVain(body, es[i])
  {
  }
}
