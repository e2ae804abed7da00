/**
  The fragment of JSON Schema (draft 2020-12) that the pinned contract uses, as
  harness/validator.py's `check_body_against_schema` sees it: one error per failing keyword
  (per missing name for `required`), each at the place in the body where it fails.
 */
module Schema {
  import opened Json

  /** One step of jsonschema's `absolute_path`. */
  datatype Step = Key(name: string) | Index(at: nat)

  type Path = seq<Step>

  /** `keyword` is jsonschema's `error.validator`; `detail` names the missing field, if any. */
  datatype SchemaError = SchemaError(path: Path, keyword: string, detail: string)

  predicate HasType(name: string, v: Json) {
    match name
    case "object" => v.JObj?
    case "array" => v.JArr?
    case "string" => v.JStr?
    case "boolean" => v.JBool?
    case "null" => v.JNull?
    case "number" => v.IsNumber()
    case "integer" => v.JInt? || (v.JFloat? && v.r == v.r.Floor as real)
    case _ => false
  }

  predicate TypeAllows(t: Json, v: Json) {
    match t
    case JStr(name) => HasType(name, v)
    case JArr(names) => exists i | 0 <= i < |names| :: names[i].JStr? && HasType(names[i].s, v)
    case _ => true
  }

  predicate EnumAllows(e: Json, v: Json) {
    e.JArr? ==> exists i | 0 <= i < |e.items| :: SchemaEqual(e.items[i], v)
  }

  predicate LengthAllows(m: map<string, Json>, keyword: string, v: Json) {
    keyword in m && m[keyword].IsNumber() && v.JStr? ==>
      if keyword == "minLength"
      then |v.s| as real >= m[keyword].Number()
      else |v.s| as real <= m[keyword].Number()
  }

  predicate RangeAllows(m: map<string, Json>, keyword: string, v: Json) {
    keyword in m && m[keyword].IsNumber() && v.IsNumber() ==>
      if keyword == "minimum"
      then v.Number() >= m[keyword].Number()
      else v.Number() <= m[keyword].Number()
  }

  function When(failed: bool, path: Path, keyword: string): set<SchemaError> {
    if failed then {SchemaError(path, keyword, "")} else {}
  }

  /** The required names that the object lacks. */
  function MissingNames(m: map<string, Json>, v: Json): set<string> {
    if "required" in m && m["required"].JArr? && v.JObj?
    then set i | 0 <= i < |m["required"].items|
                 && m["required"].items[i].JStr? && m["required"].items[i].s !in v.m
           :: m["required"].items[i].s
    else {}
  }

  /** The errors of the keywords that look at the value itself and not into it. */
  function LocalErrors(m: map<string, Json>, v: Json, path: Path): set<SchemaError> {
    When("type" in m && !TypeAllows(m["type"], v), path, "type")
    + When("enum" in m && !EnumAllows(m["enum"], v), path, "enum")
    + (set name | name in MissingNames(m, v) :: SchemaError(path, "required", name))
    + When(!LengthAllows(m, "minLength", v), path, "minLength")
    + When(!LengthAllows(m, "maxLength", v), path, "maxLength")
    + When(!RangeAllows(m, "minimum", v), path, "minimum")
    + When(!RangeAllows(m, "maximum", v), path, "maximum")
  }

  /** The members of an object that `properties` does not speak about. */
  function Extras(m: map<string, Json>, v: Json): set<string> {
    var known := if "properties" in m then m["properties"].Members().Keys else {};
    v.Members().Keys - known
  }

  /** `Draft202012Validator(s).iter_errors(v)`, as a set. */
  function Errors(s: Json, v: Json, path: Path): set<SchemaError>
    decreases s, 1
  {
    match s
    case JBool(b) => When(!b, path, "")
    case JObj(m) =>
      if "$ref" in m then {SchemaError(path, "$ref", "")}
      else
        LocalErrors(m, v, path) + PropertyErrors(s, v, path) + ExtraErrors(s, v, path)
        + ItemErrors(s, v, path) + AnyOfErrors(s, v, path)
    case _ => {}
  }

  function PropertyErrors(s: Json, v: Json, path: Path): set<SchemaError>
    requires s.JObj?
    decreases s, 0
  {
    if "properties" in s.m && s.m["properties"].JObj? && v.JObj? then
      var ps := s.m["properties"].m;
      set k, e | k in ps && k in v.m && e in Errors(ps[k], v.m[k], path + [Key(k)]) :: e
    else {}
  }

  function ExtraErrors(s: Json, v: Json, path: Path): set<SchemaError>
    requires s.JObj?
    decreases s, 0
  {
    if "additionalProperties" in s.m && v.JObj? then
      var ap := s.m["additionalProperties"];
      if ap.JObj? then
        set k, e | k in Extras(s.m, v) && k in v.m && e in Errors(ap, v.m[k], path + [Key(k)]) :: e
      else When(ap == JBool(false) && Extras(s.m, v) != {}, path, "additionalProperties")
    else {}
  }

  function ItemErrors(s: Json, v: Json, path: Path): set<SchemaError>
    requires s.JObj?
    decreases s, 0
  {
    if "items" in s.m && v.JArr? then
      var item := s.m["items"];
      if item == JBool(false) then When(v.items != [], path, "items")
      else set i, e | 0 <= i < |v.items| && e in Errors(item, v.items[i], path + [Index(i)]) :: e
    else {}
  }

  function AnyOfErrors(s: Json, v: Json, path: Path): set<SchemaError>
    requires s.JObj?
    decreases s, 0
  {
    if "anyOf" in s.m && s.m["anyOf"].JArr? then
      var bs := s.m["anyOf"].items;
      When(forall i | 0 <= i < |bs| :: Errors(bs[i], v, path) != {}, path, "anyOf")
    else {}
  }

  /** The keywords of LocalErrors all hold. */
  predicate LocalAccepts(m: map<string, Json>, v: Json) {
    && ("type" in m ==> TypeAllows(m["type"], v))
    && ("enum" in m ==> EnumAllows(m["enum"], v))
    && ("required" in m && m["required"].JArr? && v.JObj? ==>
          forall i | 0 <= i < |m["required"].items| ::
            m["required"].items[i].JStr? ==> m["required"].items[i].s in v.m)
    && LengthAllows(m, "minLength", v) && LengthAllows(m, "maxLength", v)
    && RangeAllows(m, "minimum", v) && RangeAllows(m, "maximum", v)
  }

  /** What the keywords mean, with no errors or places: the value satisfies the schema. */
  predicate Accepts(s: Json, v: Json) {
    match s
    case JBool(b) => b
    case JObj(m) =>
      && "$ref" !in m
      && LocalAccepts(m, v)
      && ("properties" in m && m["properties"].JObj? && v.JObj? ==>
            forall k | k in m["properties"].m && k in v.m :: Accepts(m["properties"].m[k], v.m[k]))
      && ("additionalProperties" in m && v.JObj? ==>
            forall k | k in v.m && k in Extras(m, v) ::
              m["additionalProperties"] != JBool(false)
              && (m["additionalProperties"].JObj? ==> Accepts(m["additionalProperties"], v.m[k])))
      && ("items" in m && v.JArr? ==>
            forall i | 0 <= i < |v.items| :: Accepts(m["items"], v.items[i]))
      && ("anyOf" in m && m["anyOf"].JArr? ==>
            exists i | 0 <= i < |m["anyOf"].items| :: Accepts(m["anyOf"].items[i], v))
    case _ => true
  }

  /** The error list is empty exactly when the value satisfies the schema, at any place. */
  lemma {:induction false} NoErrorsMeansAccepts(s: Json, v: Json, path: Path)
    ensures Errors(s, v, path) == {} <==> Accepts(s, v)
    decreases s
  {
    if s.JObj? && "$ref" !in s.m {
      NoneOfFive(s, v, path);
      LocalMeans(s.m, v, path);
      PropertiesMean(s, v, path);
      ExtrasMean(s, v, path);
      ItemsMean(s, v, path);
      AnyOfMeans(s, v, path);
    }
  }

  lemma NoneOfFive(s: Json, v: Json, path: Path)
    requires s.JObj? && "$ref" !in s.m
    ensures Errors(s, v, path) == {} <==>
      && LocalErrors(s.m, v, path) == {} && PropertyErrors(s, v, path) == {} && ExtraErrors(s, v, path) == {}
      && ItemErrors(s, v, path) == {} && AnyOfErrors(s, v, path) == {}
  {
  }

  lemma LocalMeans(m: map<string, Json>, v: Json, path: Path)
    ensures LocalErrors(m, v, path) == {} <==> LocalAccepts(m, v)
  {
    forall name | name in MissingNames(m, v)
      ensures SchemaError(path, "required", name) in LocalErrors(m, v, path)
    {
    }
    if "required" in m && m["required"].JArr? && v.JObj? {
      forall i | 0 <= i < |m["required"].items|
        && m["required"].items[i].JStr? && m["required"].items[i].s !in v.m
        ensures m["required"].items[i].s in MissingNames(m, v)
      {
      }
    }
  }

  lemma {:induction false} PropertiesMean(s: Json, v: Json, path: Path)
    requires s.JObj?
    ensures PropertyErrors(s, v, path) == {} <==>
      ("properties" in s.m && s.m["properties"].JObj? && v.JObj? ==>
         forall k | k in s.m["properties"].m && k in v.m :: Accepts(s.m["properties"].m[k], v.m[k]))
    decreases s, 0
  {
    if "properties" in s.m && s.m["properties"].JObj? && v.JObj? {
      var ps := s.m["properties"].m;
      forall k | k in ps && k in v.m
        ensures Errors(ps[k], v.m[k], path + [Key(k)]) == {} <==> Accepts(ps[k], v.m[k])
        ensures Errors(ps[k], v.m[k], path + [Key(k)]) <= PropertyErrors(s, v, path)
      {
        NoErrorsMeansAccepts(ps[k], v.m[k], path + [Key(k)]);
      }
    }
  }

  lemma {:induction false} ExtrasMean(s: Json, v: Json, path: Path)
    requires s.JObj?
    ensures ExtraErrors(s, v, path) == {} <==>
      ("additionalProperties" in s.m && v.JObj? ==>
         forall k | k in v.m && k in Extras(s.m, v) ::
           s.m["additionalProperties"] != JBool(false)
           && (s.m["additionalProperties"].JObj? ==> Accepts(s.m["additionalProperties"], v.m[k])))
    decreases s, 0
  {
    if "additionalProperties" in s.m && v.JObj? {
      var ap := s.m["additionalProperties"];
      if ap.JObj? {
        forall k | k in Extras(s.m, v) && k in v.m
          ensures Errors(ap, v.m[k], path + [Key(k)]) == {} <==> Accepts(ap, v.m[k])
          ensures Errors(ap, v.m[k], path + [Key(k)]) <= ExtraErrors(s, v, path)
        {
          NoErrorsMeansAccepts(ap, v.m[k], path + [Key(k)]);
        }
      } else if Extras(s.m, v) != {} {
        var k :| k in Extras(s.m, v);
        assert k in v.m;
      }
    }
  }

  lemma {:induction false} ItemsMean(s: Json, v: Json, path: Path)
    requires s.JObj?
    ensures ItemErrors(s, v, path) == {} <==>
      ("items" in s.m && v.JArr? ==>
         forall i | 0 <= i < |v.items| :: Accepts(s.m["items"], v.items[i]))
    decreases s, 0
  {
    if "items" in s.m && v.JArr? {
      var item := s.m["items"];
      if item == JBool(false) {
        assert v.items != [] ==> !Accepts(item, v.items[0]);
      } else {
        forall i | 0 <= i < |v.items|
          ensures Errors(item, v.items[i], path + [Index(i)]) == {} <==> Accepts(item, v.items[i])
          ensures Errors(item, v.items[i], path + [Index(i)]) <= ItemErrors(s, v, path)
        {
          NoErrorsMeansAccepts(item, v.items[i], path + [Index(i)]);
        }
      }
    }
  }

  lemma {:induction false} AnyOfMeans(s: Json, v: Json, path: Path)
    requires s.JObj?
    ensures AnyOfErrors(s, v, path) == {} <==>
      ("anyOf" in s.m && s.m["anyOf"].JArr? ==>
         exists i | 0 <= i < |s.m["anyOf"].items| :: Accepts(s.m["anyOf"].items[i], v))
    decreases s, 0
  {
    if "anyOf" in s.m && s.m["anyOf"].JArr? {
      var bs := s.m["anyOf"].items;
      forall i | 0 <= i < |bs|
        ensures Errors(bs[i], v, path) == {} <==> Accepts(bs[i], v)
      {
        NoErrorsMeansAccepts(bs[i], v, path);
      }
    }
  }

  /** The keywords this fragment gives a meaning to; any other key is an annotation. */
  const KEYWORDS: set<string> := {
    "$ref", "type", "enum", "required", "minLength", "maxLength", "minimum", "maximum",
    "properties", "additionalProperties", "items", "anyOf"
  }

  predicate Annotations(m: map<string, Json>) { m.Keys !! KEYWORDS }

  /** Laying annotations over a schema changes no verdict. */
  lemma AnnotationsAreHarmless(s: map<string, Json>, over: map<string, Json>, v: Json, path: Path)
    requires Annotations(over)
    ensures Errors(JObj(s + over), v, path) == Errors(JObj(s), v, path)
  {
    var t := s + over;
    forall k | k in KEYWORDS ensures SameAt(s, t, k) {
    }
    SameKeywordsSameErrors(s, t, v, path);
  }

  predicate SameAt(s: map<string, Json>, t: map<string, Json>, k: string) {
    (k in t <==> k in s) && (k in s ==> t[k] == s[k])
  }

  /** The errors depend on the keywords only. */
  lemma SameKeywordsSameErrors(s: map<string, Json>, t: map<string, Json>, v: Json, path: Path)
    requires forall k | k in KEYWORDS :: SameAt(s, t, k)
    ensures Errors(JObj(t), v, path) == Errors(JObj(s), v, path)
  {
    SameLocals(s, t, v, path);
    assert SameAt(s, t, "$ref");
    assert SameAt(s, t, "properties");
    assert SameAt(s, t, "additionalProperties");
    assert SameAt(s, t, "items");
    assert SameAt(s, t, "anyOf");
    SameInside(s, t, v, path);
  }

  lemma SameLocals(s: map<string, Json>, t: map<string, Json>, v: Json, path: Path)
    requires forall k | k in KEYWORDS :: SameAt(s, t, k)
    ensures LocalErrors(t, v, path) == LocalErrors(s, v, path)
  {
    assert SameAt(s, t, "type");
    assert SameAt(s, t, "enum");
    assert SameAt(s, t, "required");
    assert SameAt(s, t, "minLength");
    assert SameAt(s, t, "maxLength");
    assert SameAt(s, t, "minimum");
    assert SameAt(s, t, "maximum");
  }

  lemma SameInside(s: map<string, Json>, t: map<string, Json>, v: Json, path: Path)
    requires SameAt(s, t, "properties") && SameAt(s, t, "additionalProperties")
    requires SameAt(s, t, "items") && SameAt(s, t, "anyOf")
    ensures PropertyErrors(JObj(t), v, path) == PropertyErrors(JObj(s), v, path)
    ensures ExtraErrors(JObj(t), v, path) == ExtraErrors(JObj(s), v, path)
    ensures ItemErrors(JObj(t), v, path) == ItemErrors(JObj(s), v, path)
    ensures AnyOfErrors(JObj(t), v, path) == AnyOfErrors(JObj(s), v, path)
  {
    assert Extras(t, v) == Extras(s, v);
  }

  // ----- keyword by keyword -----

  const LENGTHS: set<string> := {"minLength", "maxLength"}

  const RANGES: set<string> := {"minimum", "maximum"}

  /** What one keyword with the value j asks of v; `additionalProperties` looks beyond itself. */
  predicate Demands(keyword: string, j: Json, v: Json) {
    && (keyword == "type" ==> TypeAllows(j, v))
    && (keyword == "enum" ==> EnumAllows(j, v))
    && (keyword == "required" && j.JArr? && v.JObj? ==>
          forall i | 0 <= i < |j.items| :: j.items[i].JStr? ==> j.items[i].s in v.m)
    && (keyword in LENGTHS ==> LengthAllows(map[keyword := j], keyword, v))
    && (keyword in RANGES ==> RangeAllows(map[keyword := j], keyword, v))
    && (keyword == "properties" && j.JObj? && v.JObj? ==>
          forall k | k in j.m && k in v.m :: Accepts(j.m[k], v.m[k]))
    && (keyword == "items" && v.JArr? ==> forall i | 0 <= i < |v.items| :: Accepts(j, v.items[i]))
    && (keyword == "anyOf" && j.JArr? ==> exists i | 0 <= i < |j.items| :: Accepts(j.items[i], v))
  }

  predicate MeetsEach(m: map<string, Json>, v: Json) { forall k | k in m :: Demands(k, m[k], v) }

  /** What `additionalProperties` asks of the members that the `properties` beside it do not name. */
  predicate ExtrasFit(m: map<string, Json>, v: Json) {
    "additionalProperties" in m && v.JObj? ==>
      forall k | k in v.m && k in Extras(m, v) ::
        && m["additionalProperties"] != JBool(false)
        && (m["additionalProperties"].JObj? ==> Accepts(m["additionalProperties"], v.m[k]))
  }

  lemma LocalByKeyword(m: map<string, Json>, v: Json)
    requires MeetsEach(m, v)
    ensures LocalAccepts(m, v)
  {
    assert "type" in m ==> Demands("type", m["type"], v);
    assert "enum" in m ==> Demands("enum", m["enum"], v);
    assert "required" in m ==> Demands("required", m["required"], v);
    assert "minLength" in m ==> Demands("minLength", m["minLength"], v);
    assert "maxLength" in m ==> Demands("maxLength", m["maxLength"], v);
    assert "minimum" in m ==> Demands("minimum", m["minimum"], v);
    assert "maximum" in m ==> Demands("maximum", m["maximum"], v);
  }

  lemma InsideByKeyword(m: map<string, Json>, v: Json)
    requires MeetsEach(m, v)
    ensures "properties" in m ==> Demands("properties", m["properties"], v)
    ensures "items" in m ==> Demands("items", m["items"], v)
    ensures "anyOf" in m ==> Demands("anyOf", m["anyOf"], v)
  {
  }

  lemma AcceptedDemands(m: map<string, Json>, k: string, v: Json)
    requires Accepts(JObj(m), v) && k in m
    ensures Demands(k, m[k], v)
  {
  }

  /** A schema object accepts what each of its keywords accepts. */
  lemma ByKeyword(m: map<string, Json>, v: Json)
    ensures Accepts(JObj(m), v) <==> "$ref" !in m && MeetsEach(m, v) && ExtrasFit(m, v)
  {
    if MeetsEach(m, v) {
      LocalByKeyword(m, v);
      InsideByKeyword(m, v);
    }
    if Accepts(JObj(m), v) {
      forall k | k in m ensures Demands(k, m[k], v) { AcceptedDemands(m, k, v); }
    }
  }

  // ----- one schema laid over another -----

  const SHAPE: set<string> := {"properties", "additionalProperties"}

  /**
    The part of t that laying `over` on top of it does away with. The two keywords about the shape
    of objects go together: one is measured against the other.
   */
  function Replaced(t: map<string, Json>, over: map<string, Json>): map<string, Json> {
    map k | k in t && (k in over || (k in SHAPE && over.Keys * SHAPE != {})) :: t[k]
  }

  /** What both schemas ask of v and the merged one may not: the replaced part, and the extras of `over`. */
  predicate Lost(t: map<string, Json>, over: map<string, Json>, v: Json) {
    Accepts(JObj(Replaced(t, over)), v) && ExtrasFit(over, v)
  }

  /** What the merged schema asks of v and both together may not: extras measured by the other's properties. */
  predicate Added(t: map<string, Json>, over: map<string, Json>, v: Json) { ExtrasFit(t + over, v) }

  /** Both schemas accept v. */
  predicate Both(t: map<string, Json>, over: map<string, Json>, v: Json) {
    Accepts(JObj(t), v) && Accepts(JObj(over), v)
  }

  lemma ReplacedExtras(t: map<string, Json>, over: map<string, Json>, v: Json)
    ensures ExtrasFit(t, v) ==> ExtrasFit(Replaced(t, over), v)
    ensures ExtrasFit(Replaced(t, over), v) && ExtrasFit(t + over, v) ==> ExtrasFit(t, v)
  {
    var r := Replaced(t, over);
    if over.Keys * SHAPE == {} {
      assert "properties" !in over.Keys * SHAPE && "additionalProperties" !in over.Keys * SHAPE;
      assert Extras(t + over, v) == Extras(t, v);
    } else {
      assert "properties" in t <==> "properties" in r;
      assert Extras(r, v) == Extras(t, v);
    }
  }

  lemma MergedMeets(t: map<string, Json>, over: map<string, Json>, v: Json)
    ensures MeetsEach(t, v) && MeetsEach(over, v) ==> MeetsEach(t + over, v)
    ensures MeetsEach(t, v) ==> MeetsEach(Replaced(t, over), v)
    ensures MeetsEach(t + over, v) ==> MeetsEach(over, v)
    ensures MeetsEach(t + over, v) && MeetsEach(Replaced(t, over), v) ==> MeetsEach(t, v)
  {
    var out, r := t + over, Replaced(t, over);
    if MeetsEach(out, v) {
      forall k | k in over ensures Demands(k, over[k], v) { assert out[k] == over[k]; }
      forall k | k in t && (k in over ==> Demands(k, t[k], v)) ensures Demands(k, t[k], v) {
        if k !in over { assert out[k] == t[k]; }
      }
    }
    if MeetsEach(r, v) {
      forall k | k in t && k in over ensures Demands(k, t[k], v) { assert r[k] == t[k]; }
    }
  }

  lemma BothMeansLost(t: map<string, Json>, over: map<string, Json>, v: Json)
    requires Both(t, over, v)
    ensures Lost(t, over, v)
  {
    ByKeyword(t, v);
    ByKeyword(over, v);
    ByKeyword(Replaced(t, over), v);
    ReplacedExtras(t, over, v);
    MergedMeets(t, over, v);
  }

  lemma AcceptedAndNotLost(t: map<string, Json>, over: map<string, Json>, v: Json)
    requires "$ref" !in over && Accepts(JObj(t + over), v) && Lost(t, over, v)
    ensures Both(t, over, v)
  {
    ByKeyword(t, v);
    ByKeyword(over, v);
    ByKeyword(t + over, v);
    ByKeyword(Replaced(t, over), v);
    ReplacedExtras(t, over, v);
    MergedMeets(t, over, v);
  }

  lemma BothAndAdded(t: map<string, Json>, over: map<string, Json>, v: Json)
    requires Both(t, over, v)
    ensures Accepts(JObj(t + over), v) <==> Added(t, over, v)
  {
    ByKeyword(t, v);
    ByKeyword(over, v);
    ByKeyword(t + over, v);
    MergedMeets(t, over, v);
  }

  /** The merged schema is the conjunction exactly when nothing that matters for v was lost or added. */
  lemma OverlayIsConjunctionIff(t: map<string, Json>, over: map<string, Json>, v: Json)
    requires "$ref" !in over
    ensures (Accepts(JObj(t + over), v) <==> Both(t, over, v))
            <==> (Accepts(JObj(t + over), v) ==> Lost(t, over, v)) && (Both(t, over, v) ==> Added(t, over, v))
  {
    if Both(t, over, v) {
      BothMeansLost(t, over, v);
      BothAndAdded(t, over, v);
    } else if Accepts(JObj(t + over), v) && Lost(t, over, v) {
      AcceptedAndNotLost(t, over, v);
    }
  }

  /** No keyword stands in both, and neither's `additionalProperties` meets the other's `properties`. */
  predicate Disjoint(t: map<string, Json>, over: map<string, Json>) {
    && t.Keys * over.Keys * KEYWORDS == {}
    && !("additionalProperties" in t && "properties" in over)
    && !("additionalProperties" in over && "properties" in t)
  }

  lemma NoKeywordReplaced(t: map<string, Json>, over: map<string, Json>, k: string)
    requires "$ref" !in over && Disjoint(t, over)
    ensures k in Replaced(t, over) ==> k !in KEYWORDS
  {
    assert k !in t.Keys * over.Keys * KEYWORDS;
  }

  lemma NothingReplaced(t: map<string, Json>, over: map<string, Json>, v: Json)
    requires "$ref" !in over && Disjoint(t, over)
    ensures Accepts(JObj(Replaced(t, over)), v)
  {
    var r := Replaced(t, over);
    forall k | k in r ensures Demands(k, r[k], v) {
      NoKeywordReplaced(t, over, k);
      AnnotationDemandsNothing(k, r[k], v);
    }
    NoKeywordReplaced(t, over, "$ref");
    NoKeywordReplaced(t, over, "additionalProperties");
    ByKeyword(r, v);
  }

  lemma AnnotationDemandsNothing(k: string, j: Json, v: Json)
    requires k !in KEYWORDS
    ensures Demands(k, j, v)
  {
  }

  lemma DisjointExtras(t: map<string, Json>, over: map<string, Json>, v: Json)
    requires Disjoint(t, over)
    ensures ExtrasFit(t + over, v) <==> ExtrasFit(t, v) && ExtrasFit(over, v)
  {
    var a := "additionalProperties";
    assert a in t.Keys * over.Keys ==> a in t.Keys * over.Keys * KEYWORDS;
    if a in t { assert Extras(t + over, v) == Extras(t, v); }
    if a in over { assert Extras(t + over, v) == Extras(over, v); }
  }

  /** Schemas that do not meet conjoin. */
  lemma DisjointConjoin(t: map<string, Json>, over: map<string, Json>, v: Json)
    requires "$ref" !in over && Disjoint(t, over)
    ensures Accepts(JObj(t + over), v) <==> Both(t, over, v)
  {
    NothingReplaced(t, over, v);
    DisjointExtras(t, over, v);
    OverlayIsConjunctionIff(t, over, v);
    if Both(t, over, v) {
      ByKeyword(t, v);
      ByKeyword(over, v);
    }
    if Accepts(JObj(t + over), v) { ByKeyword(t + over, v); }
  }
}
