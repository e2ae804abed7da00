/** The pinned contract: spec/openapi.json, with the keywords and the order of paths it has there. */
module DeviceContract {
  import opened Json
  import opened Text
  import opened Pointer
  import opened Resolver
  import opened Schema
  import opened Meaning
  import opened Validator
  import Paths

  // ----- building blocks -----

  function Strings(names: seq<string>): Json {
    JArr(seq(|names|, i requires 0 <= i < |names| => JStr(names[i])))
  }

  function Typed(name: string): Json { JObj(map["type" := JStr(name)]) }

  function ObjectSchema(required: seq<string>, properties: map<string, Json>): Json {
    JObj(map["type" := JStr("object"), "required" := Strings(required), "properties" := JObj(properties)])
  }

  function ArrayOf(item: Json): Json {
    JObj(map["type" := JStr("array"), "items" := item])
  }

  /** `#/components/schemas/` and the name. */
  function Named(name: string): string { Local(["components", "schemas", name]) }

  function Local(keys: seq<string>): string { "#/" + Join(keys, '/') }

  function Ref(name: string): Json { JObj(map["$ref" := JStr(Named(name))]) }

  // ----- components -----

  function NameSchema(): Json {
    JObj(map["type" := JStr("string"), "minLength" := JInt(1), "maxLength" := JInt(64)])
  }

  function StatusSchema(): Json {
    JObj(map["type" := JStr("string"), "enum" := Strings(["online", "offline", "degraded"])])
  }

  const STATUS_NOTE := "Current operational state of the device."

  function StatusProperty(): Json {
    JObj(map["$ref" := JStr(Named("DeviceStatus")), "description" := JStr(STATUS_NOTE)])
  }

  function DeviceSchema(status: Json): Json {
    ObjectSchema(["id", "name", "status"],
                 map["id" := Typed("integer"), "name" := NameSchema(), "status" := status])
  }

  function PageSchema(device: Json): Json {
    ObjectSchema(["items", "total", "limit", "offset"],
                 map["items" := ArrayOf(device), "total" := Typed("integer"),
                     "limit" := Typed("integer"), "offset" := Typed("integer")])
  }

  function DetailSchema(): Json {
    ObjectSchema(["code", "message"], map["code" := Typed("string"), "message" := Typed("string")])
  }

  function ErrorSchema(detail: Json): Json { ObjectSchema(["error"], map["error" := detail]) }

  function ComponentTable(device: Json, page: Json, status: Json, detail: Json, error: Json): map<string, Json> {
    map["Device" := device, "DevicePage" := page, "DeviceStatus" := status,
        "ErrorDetail" := detail, "ErrorResponse" := error]
  }

  function Components(): map<string, Json> {
    ComponentTable(DeviceSchema(StatusProperty()), PageSchema(Ref("Device")), StatusSchema(), DetailSchema(),
                   ErrorSchema(Ref("ErrorDetail")))
  }

  // ----- operations -----

  function NoContent(): Json { JObj(map["description" := JStr("Successful Response")]) }

  function WithBody(schema: Json): Json {
    JObj(map["content" := JObj(map["application/json" := JObj(map["schema" := schema])])])
  }

  function ErrorBody(): Json { WithBody(Ref("ErrorResponse")) }

  function BadRequest(): map<string, Json> { map["400" := ErrorBody()] }

  function NotFound(): map<string, Json> { map["404" := ErrorBody()] }

  function Conflict(): map<string, Json> { map["409" := ErrorBody()] }

  function Unprocessable(): map<string, Json> { map["422" := ErrorBody()] }

  function Op(responses: map<string, Json>): Json { JObj(map["responses" := JObj(responses)]) }

  function ListResponses(): map<string, Json> {
    map["200" := WithBody(Ref("DevicePage"))] + Unprocessable()
  }

  function CreateResponses(): map<string, Json> {
    map["201" := WithBody(Ref("Device"))] + BadRequest() + Conflict() + Unprocessable()
  }

  function SearchResponses(): map<string, Json> {
    map["200" := WithBody(ArrayOf(Ref("Device")))] + Unprocessable()
  }

  function GetResponses(): map<string, Json> {
    map["200" := WithBody(Ref("Device"))] + NotFound() + Unprocessable()
  }

  function ReplaceResponses(): map<string, Json> {
    map["200" := WithBody(Ref("Device"))] + BadRequest() + NotFound() + Unprocessable()
  }

  function DeleteResponses(): map<string, Json> {
    map["204" := NoContent()] + NotFound() + Unprocessable()
  }

  function SetStateResponses(): map<string, Json> {
    map["200" := WithBody(Ref("Device"))] + BadRequest() + NotFound() + Conflict() + Unprocessable()
  }

  function HealthSchema(): Json {
    JObj(map["type" := JStr("object"), "additionalProperties" := Typed("string")])
  }

  function HealthResponses(): map<string, Json> { map["200" := WithBody(HealthSchema())] }

  /** The operations, each named after its handler. */
  datatype OpName = AtHealth | AtList | AtCreate | AtSearch | AtGet | AtReplace | AtDelete | AtState

  function ResponseTable(name: OpName): map<string, Json> {
    match name
    case AtHealth => HealthResponses()
    case AtList => ListResponses()
    case AtCreate => CreateResponses()
    case AtSearch => SearchResponses()
    case AtGet => GetResponses()
    case AtReplace => ReplaceResponses()
    case AtDelete => DeleteResponses()
    case AtState => SetStateResponses()
  }

  const DEVICES := "/devices"
  const SEARCH := "/devices/search"
  const DETAIL := "/devices/{device_id}"
  const STATE := "/devices/{device_id}/status"
  const HEALTH := "/health"

  function PathTable(devices: Json, search: Json, detail: Json, state: Json, health: Json): map<string, Json> {
    map[DEVICES := devices, SEARCH := search, DETAIL := detail, STATE := state, HEALTH := health]
  }

  function Items(): map<string, Json> {
    PathTable(
      JObj(map["get" := Op(ResponseTable(AtList)), "post" := Op(ResponseTable(AtCreate))]),
      JObj(map["get" := Op(ResponseTable(AtSearch))]),
      JObj(map["get" := Op(ResponseTable(AtGet)), "put" := Op(ResponseTable(AtReplace)),
        "delete" := Op(ResponseTable(AtDelete))]),
      JObj(map["patch" := Op(ResponseTable(AtState))]),
      JObj(map["get" := Op(ResponseTable(AtHealth))]))
  }

  function Document(components: map<string, Json>, items: map<string, Json>): Json {
    JObj(map["components" := JObj(map["schemas" := JObj(components)]), "paths" := JObj(items)])
  }

  function Templates(): seq<string> { [DEVICES, SEARCH, DETAIL, STATE, HEALTH] }

  function Pinned(): Contract { Contract(Document(Components(), Items()), Templates()) }

  // ----- looking things up -----

  lemma PathTableHolds(devices: Json, search: Json, detail: Json, state: Json, health: Json)
    ensures var t := PathTable(devices, search, detail, state, health);
      && t.Keys == {DEVICES, SEARCH, DETAIL, STATE, HEALTH}
      && t[DEVICES] == devices && t[SEARCH] == search && t[DETAIL] == detail
      && t[STATE] == state && t[HEALTH] == health
  {
    assert |DEVICES| == 8 && |SEARCH| == 15 && |DETAIL| == 20 && |STATE| == 27 && |HEALTH| == 7;
  }

  // ----- references into the document -----

  lemma {:induction false} EscapePlain(key: string)
    requires '~' !in key && '/' !in key
    ensures Escape(key) == key
  {
    if key != "" {
      EscapePlain(key[1..]);
      assert key == [key[0]] + key[1..];
    }
  }

  predicate Plain(keys: seq<string>) { forall i | 0 <= i < |keys| :: '~' !in keys[i] && '/' !in keys[i] }

  /** Keys without `~` and `/` need no escaping. */
  lemma LocalIsPointer(doc: Json, keys: seq<string>)
    requires Plain(keys) && keys != []
    ensures ResolveRef(doc, Local(keys)) == Answer(Walk(doc, keys))
  {
    forall i | 0 <= i < |keys| ensures EscapeAll(keys)[i] == keys[i] { EscapePlain(keys[i]); }
    assert EscapeAll(keys) == keys;
    PointerRoundTrip(doc, keys);
  }

  lemma WalkThree(node: Json, a: string, b: string, c: string)
    requires node.JObj? && a in node.m && node.m[a].JObj? && b in node.m[a].m
    requires node.m[a].m[b].JObj? && c in node.m[a].m[b].m
    ensures Walk(node, [a, b, c]) == Some(node.m[a].m[b].m[c])
  {
    assert [a, b, c][1..] == [b, c] && [b, c][1..] == [c] && [c][1..] == [];
    assert Walk(node.m[a].m[b], [c]) == Some(node.m[a].m[b].m[c]);
    assert Walk(node.m[a], [b, c]) == Walk(node.m[a].m[b], [c]);
  }

  /** A named schema is where its reference points. */
  lemma NamedResolves(components: map<string, Json>, items: map<string, Json>, name: string)
    requires '~' !in name && '/' !in name && name in components
    ensures ResolveRef(Document(components, items), Named(name)) == Answer(Some(components[name]))
  {
    LocalIsPointer(Document(components, items), ["components", "schemas", name]);
    WalkThree(Document(components, items), "components", "schemas", name);
  }

  // ----- no cycles -----

  lemma NamedLength(name: string)
    ensures |Named(name)| == 21 + |name|
  {
    var a, b := "components", "schemas";
    assert [a, b, name][1..] == [b, name] && [b, name][1..] == [name];
    assert Join([b, name], '/') == b + ['/'] + name;
    assert Join([a, b, name], '/') == a + ['/'] + Join([b, name], '/');
  }

  function RankOf(status: string, detail: string, device: string, error: string, page: string): map<string, nat> {
    map[status := 0, detail := 0, device := 1, error := 1, page := 2]
  }

  /** How deep references go below each named schema. */
  function Rank(): map<string, nat> {
    RankOf(Named("DeviceStatus"), Named("ErrorDetail"), Named("Device"), Named("ErrorResponse"), Named("DevicePage"))
  }

  lemma RankOfHolds(status: string, detail: string, device: string, error: string, page: string)
    requires |status| == 33 && |detail| == 32 && |device| == 27 && |error| == 34 && |page| == 31
    ensures var rank := RankOf(status, detail, device, error, page);
      && rank.Keys == {status, detail, device, error, page}
      && rank[status] == 0 && rank[detail] == 0 && rank[device] == 1 && rank[error] == 1 && rank[page] == 2
  {
  }

  lemma RankHolds()
    ensures Rank().Keys ==
      {Named("DeviceStatus"), Named("ErrorDetail"), Named("Device"), Named("ErrorResponse"), Named("DevicePage")}
    ensures Rank()[Named("DeviceStatus")] == 0 && Rank()[Named("ErrorDetail")] == 0
    ensures Rank()[Named("Device")] == 1 && Rank()[Named("ErrorResponse")] == 1
    ensures Rank()[Named("DevicePage")] == 2
  {
    NamedLength("DeviceStatus");
    NamedLength("ErrorDetail");
    NamedLength("Device");
    NamedLength("ErrorResponse");
    NamedLength("DevicePage");
    RankOfHolds(Named("DeviceStatus"), Named("ErrorDetail"), Named("Device"), Named("ErrorResponse"),
      Named("DevicePage"));
  }

  /** What resolution and its meaning ask of a schema: references in rank, schemas in place. */
  ghost predicate Tidy(j: Json, rank: map<string, nat>, bound: nat) {
    Grounded(j, rank, bound) && SchemaShaped(j)
  }

  lemma StringsAreRefFree(names: seq<string>)
    ensures RefFree(Strings(names))
  {
  }

  lemma TypedIsTidy(name: string, rank: map<string, nat>, bound: nat)
    ensures Tidy(Typed(name), rank, bound)
  {
  }

  lemma RefIsTidy(ref: string, rank: map<string, nat>, bound: nat)
    requires ref in rank && rank[ref] < bound
    ensures Tidy(JObj(map["$ref" := JStr(ref)]), rank, bound)
  {
  }

  lemma ArrayIsTidy(item: Json, rank: map<string, nat>, bound: nat)
    requires Tidy(item, rank, bound)
    ensures Tidy(ArrayOf(item), rank, bound)
  {
  }

  lemma ObjectIsTidy(required: seq<string>, properties: map<string, Json>, rank: map<string, nat>, bound: nat)
    requires "$ref" !in properties && forall k | k in properties :: Tidy(properties[k], rank, bound)
    ensures Tidy(ObjectSchema(required, properties), rank, bound)
  {
    StringsAreRefFree(required);
    RefFreeIsGrounded(Strings(required), rank, bound);
    assert Grounded(JObj(properties), rank, bound);
  }

  lemma StatusIsTidy(rank: map<string, nat>, bound: nat)
    ensures RefFree(StatusSchema()) && Tidy(StatusSchema(), rank, bound)
  {
    StringsAreRefFree(["online", "offline", "degraded"]);
    RefFreeIsGrounded(StatusSchema(), rank, bound);
  }

  lemma NameIsTidy(rank: map<string, nat>, bound: nat)
    ensures RefFree(NameSchema()) && Tidy(NameSchema(), rank, bound)
  {
    RefFreeIsGrounded(NameSchema(), rank, bound);
  }

  lemma NotedRefIsTidy(ref: string, note: string, rank: map<string, nat>, bound: nat)
    requires ref in rank && rank[ref] < bound
    ensures Tidy(JObj(map["$ref" := JStr(ref), "description" := JStr(note)]), rank, bound)
  {
  }

  lemma DeviceIsTidy(status: Json, rank: map<string, nat>, bound: nat)
    requires Tidy(status, rank, bound)
    ensures Tidy(DeviceSchema(status), rank, bound)
  {
    TypedIsTidy("integer", rank, bound);
    NameIsTidy(rank, bound);
    ObjectIsTidy(["id", "name", "status"],
      map["id" := Typed("integer"), "name" := NameSchema(), "status" := status], rank, bound);
  }

  lemma PageIsTidy(device: Json, rank: map<string, nat>, bound: nat)
    requires Tidy(device, rank, bound)
    ensures Tidy(PageSchema(device), rank, bound)
  {
    TypedIsTidy("integer", rank, bound);
    ArrayIsTidy(device, rank, bound);
    ObjectIsTidy(["items", "total", "limit", "offset"],
      map["items" := ArrayOf(device), "total" := Typed("integer"),
          "limit" := Typed("integer"), "offset" := Typed("integer")], rank, bound);
  }

  lemma DetailIsTidy(rank: map<string, nat>, bound: nat)
    ensures Tidy(DetailSchema(), rank, bound)
  {
    TypedIsTidy("string", rank, bound);
    ObjectIsTidy(["code", "message"], map["code" := Typed("string"), "message" := Typed("string")], rank, bound);
  }

  lemma ErrorIsTidy(detail: Json, rank: map<string, nat>, bound: nat)
    requires Tidy(detail, rank, bound)
    ensures Tidy(ErrorSchema(detail), rank, bound)
  {
    ObjectIsTidy(["error"], map["error" := detail], rank, bound);
  }

  /** The document has this schema under this name. */
  predicate Names(doc: Json, name: string, schema: Json) { ResolveRef(doc, Named(name)) == Ok(schema) }

  /** The document names the five schemas that responses use. */
  predicate NamesAll(doc: Json) {
    && Names(doc, "DeviceStatus", StatusSchema())
    && Names(doc, "ErrorDetail", DetailSchema())
    && Names(doc, "Device", DeviceSchema(StatusProperty()))
    && Names(doc, "ErrorResponse", ErrorSchema(Ref("ErrorDetail")))
    && Names(doc, "DevicePage", PageSchema(Ref("Device")))
  }

  ghost predicate TargetIsTidy(doc: Json, rank: map<string, nat>, ref: string) {
    ref in rank && ResolveRef(doc, ref).Ok? && Tidy(ResolveRef(doc, ref).value, rank, rank[ref])
  }

  lemma LeavesAreTidy(doc: Json)
    requires Names(doc, "DeviceStatus", StatusSchema()) && Names(doc, "ErrorDetail", DetailSchema())
    ensures TargetIsTidy(doc, Rank(), Named("DeviceStatus")) && TargetIsTidy(doc, Rank(), Named("ErrorDetail"))
  {
    RankHolds();
    StatusIsTidy(Rank(), 0);
    DetailIsTidy(Rank(), 0);
  }

  lemma DeviceTargetIsTidy(doc: Json)
    requires Names(doc, "Device", DeviceSchema(StatusProperty()))
    ensures TargetIsTidy(doc, Rank(), Named("Device"))
  {
    RankHolds();
    NotedRefIsTidy(Named("DeviceStatus"), STATUS_NOTE, Rank(), 1);
    DeviceIsTidy(StatusProperty(), Rank(), 1);
  }

  lemma ErrorTargetIsTidy(doc: Json)
    requires Names(doc, "ErrorResponse", ErrorSchema(Ref("ErrorDetail")))
    ensures TargetIsTidy(doc, Rank(), Named("ErrorResponse"))
  {
    RankHolds();
    RefIsTidy(Named("ErrorDetail"), Rank(), 1);
    ErrorIsTidy(Ref("ErrorDetail"), Rank(), 1);
  }

  lemma PageTargetIsTidy(doc: Json)
    requires Names(doc, "DevicePage", PageSchema(Ref("Device")))
    ensures TargetIsTidy(doc, Rank(), Named("DevicePage"))
  {
    RankHolds();
    RefIsTidy(Named("Device"), Rank(), 2);
    PageIsTidy(Ref("Device"), Rank(), 2);
  }

  lemma NamesAllIsSound(doc: Json)
    requires NamesAll(doc)
    ensures Sound(doc, Rank())
  {
    LeavesAreTidy(doc);
    DeviceTargetIsTidy(doc);
    ErrorTargetIsTidy(doc);
    PageTargetIsTidy(doc);
    RankHolds();
    FiveTargetsSound(doc, Rank(), Named("DeviceStatus"), Named("ErrorDetail"), Named("Device"),
                     Named("ErrorResponse"), Named("DevicePage"));
  }

  lemma FiveTargetsSound(doc: Json, rank: map<string, nat>, a: string, b: string, c: string, d: string, e: string)
    requires rank.Keys == {a, b, c, d, e}
    requires TargetIsTidy(doc, rank, a) && TargetIsTidy(doc, rank, b) && TargetIsTidy(doc, rank, c)
    requires TargetIsTidy(doc, rank, d) && TargetIsTidy(doc, rank, e)
    ensures Sound(doc, rank)
  {
    forall r | r in rank ensures TargetIsTidy(doc, rank, r) {
      assert r in rank.Keys;
    }
  }

  // ----- the schemas, resolved -----

  predicate Becomes(doc: Json, schema: Json, out: Json) { Resolve(doc, schema, []) == Some(out) }

  lemma ReferenceBecomes(doc: Json, rank: map<string, nat>, m: map<string, Json>, target: Json, out: Json, bound: nat)
    requires Acyclic(doc, rank) && "$ref" in m && Grounded(JObj(m), rank, bound)
    requires ResolveRef(doc, m["$ref"].s) == Ok(target) && Becomes(doc, target, out)
    ensures out.JObj? && Becomes(doc, JObj(m), JObj(out.m + Siblings(m)))
  {
    AcyclicFollows(doc, rank, m, bound, []);
  }

  lemma RefBecomes(doc: Json, rank: map<string, nat>, ref: string, target: Json, out: Json)
    requires Acyclic(doc, rank) && ref in rank && ResolveRef(doc, ref) == Ok(target) && Becomes(doc, target, out)
    ensures Becomes(doc, JObj(map["$ref" := JStr(ref)]), out)
  {
    var m := map["$ref" := JStr(ref)];
    RefIsTidy(ref, rank, rank[ref] + 1);
    ReferenceBecomes(doc, rank, m, target, out, rank[ref] + 1);
    NoSiblings(ref, out.m);
  }

  lemma NoSiblings(ref: string, out: map<string, Json>)
    ensures out + Siblings(map["$ref" := JStr(ref)]) == out
  {
  }

  lemma NotedRefBecomes(doc: Json, rank: map<string, nat>, ref: string, note: string, target: Json, out: Json)
    requires Acyclic(doc, rank) && ref in rank && ResolveRef(doc, ref) == Ok(target) && Becomes(doc, target, out)
    ensures out.JObj?
    ensures Becomes(doc, JObj(map["$ref" := JStr(ref), "description" := JStr(note)]),
                    JObj(out.m + map["description" := JStr(note)]))
  {
    var m := map["$ref" := JStr(ref), "description" := JStr(note)];
    NotedRefIsTidy(ref, note, rank, rank[ref] + 1);
    ReferenceBecomes(doc, rank, m, target, out, rank[ref] + 1);
    NoteIsSibling(ref, note);
  }

  lemma NoteIsSibling(ref: string, note: string)
    ensures Siblings(map["$ref" := JStr(ref), "description" := JStr(note)]) == map["description" := JStr(note)]
  {
  }

  lemma ObjectBecomes(doc: Json, required: seq<string>, properties: map<string, Json>, outs: map<string, Json>)
    requires "$ref" !in properties && properties.Keys == outs.Keys
    requires forall k | k in properties :: Becomes(doc, properties[k], outs[k])
    ensures Becomes(doc, ObjectSchema(required, properties), ObjectSchema(required, outs))
  {
    ObjectResolves(doc, properties, outs, []);
    StringsAreRefFree(required);
    RefFreeIsFixed(doc, Strings(required), []);
    ThreeKeysBecome(doc, JStr("object"), Strings(required), JObj(properties), JObj(outs));
  }

  lemma ThreeKeysBecome(doc: Json, kind: Json, required: Json, properties: Json, outs: Json)
    requires Becomes(doc, required, required) && Becomes(doc, properties, outs) && kind.JStr?
    ensures Becomes(doc, JObj(map["type" := kind, "required" := required, "properties" := properties]),
                    JObj(map["type" := kind, "required" := required, "properties" := outs]))
  {
    ObjectResolves(doc, map["type" := kind, "required" := required, "properties" := properties],
                   map["type" := kind, "required" := required, "properties" := outs], []);
  }

  lemma ArrayBecomes(doc: Json, item: Json, out: Json)
    requires Becomes(doc, item, out)
    ensures Becomes(doc, ArrayOf(item), ArrayOf(out))
  {
    RefFreeIsFixed(doc, JStr("array"), []);
    ObjectResolves(doc, ArrayOf(item).m, ArrayOf(out).m, []);
  }

  lemma TypedBecomes(doc: Json, name: string)
    ensures Becomes(doc, Typed(name), Typed(name))
  {
    RefFreeIsFixed(doc, Typed(name), []);
  }

  /** The status property of a device once its reference is followed. */
  function StatusOut(): Json { JObj(StatusSchema().m + map["description" := JStr(STATUS_NOTE)]) }

  function DeviceOut(): Json { DeviceSchema(StatusOut()) }

  lemma DeviceBecomes(doc: Json, status: Json, out: Json)
    requires Becomes(doc, status, out)
    ensures Becomes(doc, DeviceSchema(status), DeviceSchema(out))
  {
    TypedBecomes(doc, "integer");
    NameIsTidy(map[], 0);
    RefFreeIsFixed(doc, NameSchema(), []);
    ObjectBecomes(doc, ["id", "name", "status"],
      map["id" := Typed("integer"), "name" := NameSchema(), "status" := status],
      map["id" := Typed("integer"), "name" := NameSchema(), "status" := out]);
  }

  lemma PageBecomes(doc: Json, device: Json, out: Json)
    requires Becomes(doc, device, out)
    ensures Becomes(doc, PageSchema(device), PageSchema(out))
  {
    TypedBecomes(doc, "integer");
    ArrayBecomes(doc, device, out);
    ObjectBecomes(doc, ["items", "total", "limit", "offset"],
      map["items" := ArrayOf(device), "total" := Typed("integer"),
          "limit" := Typed("integer"), "offset" := Typed("integer")],
      map["items" := ArrayOf(out), "total" := Typed("integer"),
          "limit" := Typed("integer"), "offset" := Typed("integer")]);
  }

  lemma ErrorBecomes(doc: Json, detail: Json, out: Json)
    requires Becomes(doc, detail, out)
    ensures Becomes(doc, ErrorSchema(detail), ErrorSchema(out))
  {
    ObjectBecomes(doc, ["error"], map["error" := detail], map["error" := out]);
  }

  lemma DetailBecomes(doc: Json)
    ensures Becomes(doc, DetailSchema(), DetailSchema())
  {
    TypedBecomes(doc, "string");
    ObjectBecomes(doc, ["code", "message"],
      map["code" := Typed("string"), "message" := Typed("string")],
      map["code" := Typed("string"), "message" := Typed("string")]);
  }

  datatype BodyKind = ADevice | APage | AList | AnError | AReport

  /** The body schemas of the responses, as declared. */
  function DeclaredBody(kind: BodyKind): Json {
    match kind
    case ADevice => Ref("Device")
    case APage => Ref("DevicePage")
    case AList => ArrayOf(Ref("Device"))
    case AnError => Ref("ErrorResponse")
    case AReport => HealthSchema()
  }

  /** The same schemas with every reference inlined. */
  function ResolvedBody(kind: BodyKind): Json {
    match kind
    case ADevice => DeviceOut()
    case APage => PageSchema(DeviceOut())
    case AList => ArrayOf(DeviceOut())
    case AnError => ErrorSchema(DetailSchema())
    case AReport => HealthSchema()
  }

  ghost predicate BodiesResolve(doc: Json) {
    forall kind: BodyKind :: Becomes(doc, DeclaredBody(kind), ResolvedBody(kind))
  }

  lemma DeviceRefBecomes(doc: Json, rank: map<string, nat>)
    requires Acyclic(doc, rank) && Named("DeviceStatus") in rank && Named("Device") in rank
    requires Names(doc, "DeviceStatus", StatusSchema()) && Names(doc, "Device", DeviceSchema(StatusProperty()))
    ensures Becomes(doc, Ref("Device"), DeviceOut())
  {
    StatusIsTidy(map[], 0);
    RefFreeIsFixed(doc, StatusSchema(), []);
    NotedRefBecomes(doc, rank, Named("DeviceStatus"), STATUS_NOTE, StatusSchema(), StatusSchema());
    DeviceBecomes(doc, StatusProperty(), StatusOut());
    RefBecomes(doc, rank, Named("Device"), DeviceSchema(StatusProperty()), DeviceOut());
  }

  lemma ErrorRefBecomes(doc: Json, rank: map<string, nat>)
    requires Acyclic(doc, rank) && Named("ErrorDetail") in rank && Named("ErrorResponse") in rank
    requires Names(doc, "ErrorDetail", DetailSchema()) && Names(doc, "ErrorResponse", ErrorSchema(Ref("ErrorDetail")))
    ensures Becomes(doc, Ref("ErrorResponse"), ErrorSchema(DetailSchema()))
  {
    DetailBecomes(doc);
    RefBecomes(doc, rank, Named("ErrorDetail"), DetailSchema(), DetailSchema());
    ErrorBecomes(doc, Ref("ErrorDetail"), DetailSchema());
    RefBecomes(doc, rank, Named("ErrorResponse"), ErrorSchema(Ref("ErrorDetail")), ErrorSchema(DetailSchema()));
  }

  lemma PageRefBecomes(doc: Json, rank: map<string, nat>, device: Json)
    requires Acyclic(doc, rank) && Named("DevicePage") in rank && Becomes(doc, Ref("Device"), device)
    requires Names(doc, "DevicePage", PageSchema(Ref("Device")))
    ensures Becomes(doc, Ref("DevicePage"), PageSchema(device))
  {
    PageBecomes(doc, Ref("Device"), device);
    RefBecomes(doc, rank, Named("DevicePage"), PageSchema(Ref("Device")), PageSchema(device));
  }

  lemma HealthBecomes(doc: Json)
    ensures Becomes(doc, HealthSchema(), HealthSchema())
  {
    assert RefFree(Typed("string"));
    RefFreeIsFixed(doc, HealthSchema(), []);
  }

  lemma NamesAllResolve(doc: Json)
    requires NamesAll(doc)
    ensures BodiesResolve(doc)
  {
    NamesAllIsSound(doc);
    RankHolds();
    DeviceRefBecomes(doc, Rank());
    ErrorRefBecomes(doc, Rank());
    PageRefBecomes(doc, Rank(), DeviceOut());
    ArrayBecomes(doc, Ref("Device"), DeviceOut());
    HealthBecomes(doc);
    forall kind: BodyKind ensures Becomes(doc, DeclaredBody(kind), ResolvedBody(kind)) {
      match kind
      case ADevice =>
      case APage =>
      case AList =>
      case AnError =>
      case AReport =>
    }
  }

  lemma ComponentsHold(device: Json, page: Json, status: Json, detail: Json, error: Json)
    ensures var c := ComponentTable(device, page, status, detail, error);
      && "Device" in c && c["Device"] == device
      && "DevicePage" in c && c["DevicePage"] == page
      && "DeviceStatus" in c && c["DeviceStatus"] == status
      && "ErrorDetail" in c && c["ErrorDetail"] == detail
      && "ErrorResponse" in c && c["ErrorResponse"] == error
  {
  }

  predicate PlainKey(key: string) { '~' !in key && '/' !in key }

  lemma PlainNames()
    ensures PlainKey("Device") && PlainKey("DevicePage") && PlainKey("DeviceStatus")
    ensures PlainKey("ErrorDetail") && PlainKey("ErrorResponse")
  {
  }

  lemma TableNames(c: map<string, Json>, items: map<string, Json>, name: string, schema: Json)
    requires PlainKey(name) && name in c && c[name] == schema && schema.JObj?
    ensures Names(Document(c, items), name, schema)
  {
    NamedResolves(c, items, name);
  }

  predicate HasAll(c: map<string, Json>) {
    && "DeviceStatus" in c && c["DeviceStatus"] == StatusSchema()
    && "ErrorDetail" in c && c["ErrorDetail"] == DetailSchema()
    && "Device" in c && c["Device"] == DeviceSchema(StatusProperty())
    && "ErrorResponse" in c && c["ErrorResponse"] == ErrorSchema(Ref("ErrorDetail"))
    && "DevicePage" in c && c["DevicePage"] == PageSchema(Ref("Device"))
  }

  lemma DocumentNamesAll(c: map<string, Json>, items: map<string, Json>)
    requires HasAll(c)
    ensures NamesAll(Document(c, items))
  {
    PlainNames();
    TableNames(c, items, "Device", c["Device"]);
    TableNames(c, items, "DevicePage", c["DevicePage"]);
    TableNames(c, items, "DeviceStatus", c["DeviceStatus"]);
    TableNames(c, items, "ErrorDetail", c["ErrorDetail"]);
    TableNames(c, items, "ErrorResponse", c["ErrorResponse"]);
  }

  lemma DocumentIsSound(c: map<string, Json>, items: map<string, Json>)
    requires HasAll(c)
    ensures Sound(Document(c, items), Rank()) && BodiesResolve(Document(c, items))
  {
    DocumentNamesAll(c, items);
    NamesAllIsSound(Document(c, items));
    NamesAllResolve(Document(c, items));
  }

  /** References of the pinned contract are sound, so resolving it preserves its meaning. */
  lemma PinnedIsSound()
    ensures Sound(Pinned().doc, Rank()) && BodiesResolve(Pinned().doc)
  {
    ComponentsHold(DeviceSchema(StatusProperty()), PageSchema(Ref("Device")), StatusSchema(), DetailSchema(),
                   ErrorSchema(Ref("ErrorDetail")));
    DocumentIsSound(Components(), Items());
  }
}
