/**
  What each keyword of the contract's JSON Schema fragment asks of a value, in the words of the
  standard (JSON Schema 2020-12 Core, section 10, and Validation, section 6), and at which place
  and under which name its failure is reported.
 */
module Keywords {
  import opened Json
  import opened Schema

  /** A schema with this one keyword. */
  function Only(keyword: string, j: Json): Json { JObj(map[keyword := j]) }

  lemma OnlyDemands(keyword: string, j: Json, v: Json)
    requires keyword != "$ref" && keyword != "additionalProperties"
    ensures Accepts(Only(keyword, j), v) <==> Demands(keyword, j, v)
  {
    var m := map[keyword := j];
    assert m[keyword] == j;
    ByKeyword(m, v);
  }

  // ----- lengths and bounds -----

  /** The bounds on the length of a text count its characters and take it in; other values have none. */
  lemma LengthsMean(n: int, q: real, t: string, v: Json)
    ensures Accepts(Only("minLength", JInt(n)), JStr(t)) <==> |t| >= n
    ensures Accepts(Only("maxLength", JInt(n)), JStr(t)) <==> |t| <= n
    ensures Accepts(Only("minLength", JFloat(q)), JStr(t)) <==> |t| as real >= q
    ensures Accepts(Only("maxLength", JFloat(q)), JStr(t)) <==> |t| as real <= q
    ensures !v.JStr? ==> Accepts(Only("minLength", JInt(n)), v) && Accepts(Only("maxLength", JInt(n)), v)
  {
    LengthMeans(JInt(n), JStr(t));
    LengthMeans(JFloat(q), JStr(t));
    LengthMeans(JInt(n), v);
  }

  lemma LengthMeans(bound: Json, v: Json)
    requires bound.IsNumber()
    ensures Accepts(Only("minLength", bound), v) <==> (v.JStr? ==> |v.s| as real >= bound.Number())
    ensures Accepts(Only("maxLength", bound), v) <==> (v.JStr? ==> |v.s| as real <= bound.Number())
  {
    OnlyDemands("minLength", bound, v);
    OnlyDemands("maxLength", bound, v);
  }

  /** The bounds on a number take it in, whole numbers and fractions alike; other values have none. */
  lemma BoundsMean(n: int, q: real, k: int, r: real, v: Json)
    ensures Accepts(Only("minimum", JInt(n)), JInt(k)) <==> k >= n
    ensures Accepts(Only("maximum", JInt(n)), JInt(k)) <==> k <= n
    ensures Accepts(Only("minimum", JInt(n)), JFloat(r)) <==> r >= n as real
    ensures Accepts(Only("maximum", JInt(n)), JFloat(r)) <==> r <= n as real
    ensures Accepts(Only("minimum", JFloat(q)), JInt(k)) <==> k as real >= q
    ensures Accepts(Only("maximum", JFloat(q)), JInt(k)) <==> k as real <= q
    ensures Accepts(Only("minimum", JFloat(q)), JFloat(r)) <==> r >= q
    ensures Accepts(Only("maximum", JFloat(q)), JFloat(r)) <==> r <= q
    ensures !v.JInt? && !v.JFloat? ==> Accepts(Only("minimum", JInt(n)), v) && Accepts(Only("maximum", JInt(n)), v)
  {
    BoundMeans(JInt(n), JInt(k));
    BoundMeans(JInt(n), JFloat(r));
    BoundMeans(JFloat(q), JInt(k));
    BoundMeans(JFloat(q), JFloat(r));
    BoundMeans(JInt(n), v);
  }

  lemma BoundMeans(bound: Json, v: Json)
    requires bound.IsNumber()
    ensures Accepts(Only("minimum", bound), v) <==> (v.IsNumber() ==> v.Number() >= bound.Number())
    ensures Accepts(Only("maximum", bound), v) <==> (v.IsNumber() ==> v.Number() <= bound.Number())
  {
    LeastMeans(bound, v);
    MostMeans(bound, v);
  }

  lemma LeastMeans(bound: Json, v: Json)
    requires bound.IsNumber()
    ensures Accepts(Only("minimum", bound), v) <==> (v.IsNumber() ==> v.Number() >= bound.Number())
  {
    OnlyDemands("minimum", bound, v);
  }

  lemma MostMeans(bound: Json, v: Json)
    requires bound.IsNumber()
    ensures Accepts(Only("maximum", bound), v) <==> (v.IsNumber() ==> v.Number() <= bound.Number())
  {
    OnlyDemands("maximum", bound, v);
  }

  // ----- types and lists of values -----

  /** Six of the names of types. */
  lemma TypesMean(v: Json)
    ensures Accepts(Only("type", JStr("object")), v) <==> v.JObj?
    ensures Accepts(Only("type", JStr("array")), v) <==> v.JArr?
    ensures Accepts(Only("type", JStr("string")), v) <==> v.JStr?
    ensures Accepts(Only("type", JStr("boolean")), v) <==> v.JBool?
    ensures Accepts(Only("type", JStr("null")), v) <==> v == JNull
    ensures Accepts(Only("type", JStr("number")), v) <==> v.JInt? || v.JFloat?
  {
    TypeMeans("object", v);
    TypeMeans("array", v);
    TypeMeans("string", v);
    TypeMeans("boolean", v);
    TypeMeans("null", v);
    TypeMeans("number", v);
  }

  /** The seventh: a whole number is an integer even when written with a fraction. */
  lemma IntegersMean(v: Json, n: int, q: real)
    ensures !v.JFloat? ==> (Accepts(Only("type", JStr("integer")), v) <==> v.JInt?)
    ensures Accepts(Only("type", JStr("integer")), JFloat(n as real))
    ensures n as real < q < (n + 1) as real ==> !Accepts(Only("type", JStr("integer")), JFloat(q))
  {
    TypeMeans("integer", v);
    TypeMeans("integer", JFloat(n as real));
    TypeMeans("integer", JFloat(q));
    IntegerType(v);
    IntegerType(JFloat(n as real));
    IntegerType(JFloat(q));
    FloorOf(n, q);
  }

  lemma IntegerType(v: Json)
    ensures HasType("integer", v) <==> v.JInt? || (v.JFloat? && v.r == v.r.Floor as real)
  {
  }

  lemma FloorOf(n: int, q: real)
    ensures (n as real).Floor == n && (n as real < q < (n + 1) as real ==> q.Floor == n)
  {
  }

  lemma TypeMeans(name: string, v: Json)
    ensures Accepts(Only("type", JStr(name)), v) <==> HasType(name, v)
  {
    OnlyDemands("type", JStr(name), v);
  }

  /** A list of types is an alternative. */
  lemma TypeListMeans(names: seq<string>, v: Json)
    ensures Accepts(Only("type", Texts(names)), v)
            <==> exists i | 0 <= i < |names| :: Accepts(Only("type", JStr(names[i])), v)
  {
    OnlyDemands("type", Texts(names), v);
    forall i | 0 <= i < |names|
      ensures Accepts(Only("type", JStr(names[i])), v) <==> HasType(Texts(names).items[i].s, v)
    {
      TypeMeans(names[i], v);
    }
  }

  function Texts(names: seq<string>): Json { JArr(seq(|names|, i requires 0 <= i < |names| => JStr(names[i]))) }

  /** A list of texts allows these and nothing else. */
  lemma EnumMeans(names: seq<string>, v: Json)
    ensures Accepts(Only("enum", Texts(names)), v) <==> v.JStr? && v.s in names
  {
    OnlyDemands("enum", Texts(names), v);
    if v.JStr? && v.s in names {
      var i :| 0 <= i < |names| && names[i] == v.s;
      assert SchemaEqual(Texts(names).items[i], v);
    }
  }

  /** A list of one number allows it however it is written, and no boolean. */
  lemma EnumOfNumber(n: int, q: real, b: bool)
    ensures Accepts(Only("enum", JArr([JInt(n)])), JFloat(q)) <==> n as real == q
    ensures !Accepts(Only("enum", JArr([JInt(n)])), JBool(b))
    ensures !Accepts(Only("enum", JArr([JBool(b)])), JInt(n))
  {
    OneListed(JInt(n), JFloat(q));
    OneListed(JInt(n), JBool(b));
    OneListed(JBool(b), JInt(n));
  }

  lemma OneListed(j: Json, v: Json)
    ensures Accepts(Only("enum", JArr([j])), v) <==> SchemaEqual(j, v)
  {
    OnlyDemands("enum", JArr([j]), v);
    assert [j][0] == j;
  }

  /** One value as a list: numbers are equal as numbers, and everything else as what it is. */
  lemma EqualityMeans(a: Json, b: Json)
    ensures a.JInt? && b.JInt? ==> (SchemaEqual(a, b) <==> a.n == b.n)
    ensures a.JInt? && b.JFloat? ==> (SchemaEqual(a, b) <==> a.n as real == b.r)
    ensures a.JFloat? && b.JInt? ==> (SchemaEqual(a, b) <==> a.r == b.n as real)
    ensures a.JFloat? && b.JFloat? ==> (SchemaEqual(a, b) <==> a.r == b.r)
    ensures a.JBool? || a.JNull? || a.JStr? ==> (SchemaEqual(a, b) <==> a == b)
    ensures a.JArr? && b.JArr? ==>
      (SchemaEqual(a, b) <==>
         |a.items| == |b.items| && forall i | 0 <= i < |a.items| :: SchemaEqual(a.items[i], b.items[i]))
    ensures a.JObj? && b.JObj? ==>
      (SchemaEqual(a, b) <==> a.m.Keys == b.m.Keys && forall k | k in a.m :: SchemaEqual(a.m[k], b.m[k]))
    ensures (a.JArr? && !b.JArr?) || (a.JObj? && !b.JObj?) || (a.IsNumber() && !b.IsNumber()) ==> !SchemaEqual(a, b)
  {
  }

  // ----- objects, arrays and alternatives -----

  /** Every required name is there; other values have no names to require. */
  lemma RequiredMeans(names: seq<string>, v: Json)
    ensures Accepts(Only("required", Texts(names)), v) <==> (v.JObj? ==> forall name | name in names :: name in v.m)
  {
    OnlyDemands("required", Texts(names), v);
    var items := Texts(names).items;
    if v.JObj? && Demands("required", Texts(names), v) {
      forall name | name in names ensures name in v.m {
        var i :| 0 <= i < |names| && names[i] == name;
        assert items[i].s in v.m;
      }
    }
  }

  /** A property's schema is asked of the member of that name, if there is one. */
  lemma PropertyMeans(name: string, s: Json, v: Json)
    ensures Accepts(Only("properties", Only(name, s)), v) <==> (v.JObj? && name in v.m ==> Accepts(s, v.m[name]))
  {
    OnlyDemands("properties", Only(name, s), v);
    assert Only(name, s).m[name] == s;
  }

  /** Beside `properties`, false for the others allows no others, and a schema is asked of each of them. */
  lemma AdditionalMeans(names: map<string, Json>, s: map<string, Json>, m: map<string, Json>)
    ensures Accepts(JObj(map["properties" := JObj(names), "additionalProperties" := JBool(false)]), JObj(m))
            <==> Accepts(Only("properties", JObj(names)), JObj(m)) && forall k | k in m :: k in names
    ensures Accepts(JObj(map["properties" := JObj(names), "additionalProperties" := JObj(s)]), JObj(m))
            <==> Accepts(Only("properties", JObj(names)), JObj(m))
                 && forall k | k in m && k !in names :: Accepts(JObj(s), m[k])
  {
    BesideProperties(names, JBool(false), m);
    BesideProperties(names, JObj(s), m);
  }

  lemma BesideProperties(names: map<string, Json>, others: Json, m: map<string, Json>)
    requires others == JBool(false) || others.JObj?
    ensures Accepts(JObj(map["properties" := JObj(names), "additionalProperties" := others]), JObj(m))
            <==> Accepts(Only("properties", JObj(names)), JObj(m))
                 && forall k | k in m && k !in names :: others.JObj? && Accepts(others, m[k])
  {
    var s := map["properties" := JObj(names), "additionalProperties" := others];
    OnlyDemands("properties", JObj(names), JObj(m));
    ByKeyword(s, JObj(m));
    assert s["properties"] == JObj(names) && s["additionalProperties"] == others;
    assert Extras(s, JObj(m)) == m.Keys - names.Keys;
  }

  /** Every item is asked; false allows the empty list alone. */
  lemma ItemsMean(s: Json, v: Json)
    ensures Accepts(Only("items", s), v)
            <==> (v.JArr? ==> forall i | 0 <= i < |v.items| :: Accepts(s, v.items[i]))
    ensures Accepts(Only("items", JBool(false)), v) <==> (v.JArr? ==> v.items == [])
  {
    OnlyDemands("items", s, v);
    OnlyDemands("items", JBool(false), v);
    var first := if v.JArr? && v.items != [] then v.items[0] else v;
    assert !Accepts(JBool(false), first);
  }

  /** One of the branches is enough, and of none there is none. */
  lemma AnyOfMeans(s: Json, t: Json, v: Json)
    ensures Accepts(Only("anyOf", JArr([s, t])), v) <==> Accepts(s, v) || Accepts(t, v)
    ensures Accepts(Only("anyOf", JArr([s])), v) <==> Accepts(s, v)
    ensures !Accepts(Only("anyOf", JArr([])), v)
  {
    SomeBranch([s, t], v);
    SomeBranch([s], v);
    SomeBranch([], v);
    assert [s, t][0] == s && [s, t][1] == t && [s][0] == s;
  }

  lemma SomeBranch(branches: seq<Json>, v: Json)
    ensures Accepts(Only("anyOf", JArr(branches)), v)
            <==> exists i | 0 <= i < |branches| :: Accepts(branches[i], v)
  {
    OnlyDemands("anyOf", JArr(branches), v);
  }

  /** Two schemas without a keyword in common, laid together, ask for both; true asks nothing, false refuses. */
  lemma KeywordsConjoin(s: map<string, Json>, t: map<string, Json>, v: Json)
    requires "$ref" !in t && Disjoint(s, t)
    ensures Accepts(JObj(s + t), v) <==> Accepts(JObj(s), v) && Accepts(JObj(t), v)
    ensures Accepts(JBool(true), v) && !Accepts(JBool(false), v) && Accepts(JObj(map[]), v)
  {
    DisjointConjoin(s, t, v);
  }

  // ----- what is reported -----

  const PLAIN_KEYWORDS: set<string> := {"type", "enum", "minLength", "maxLength", "minimum", "maximum", "anyOf"}

  /** A keyword that looks at the value alone is reported once, by its own name and where the value is. */
  lemma FailureIsNamed(keyword: string, j: Json, v: Json, path: Path)
    requires keyword in PLAIN_KEYWORDS
    ensures Errors(Only(keyword, j), v, path)
            == if Accepts(Only(keyword, j), v) then {} else {SchemaError(path, keyword, "")}
  {
    NoErrorsMeansAccepts(Only(keyword, j), v, path);
    if keyword == "anyOf" { NamedAnyOf(j, v, path); } else { NamedLocally(keyword, j, v, path); }
  }

  lemma NamedLocally(keyword: string, j: Json, v: Json, path: Path)
    requires keyword in PLAIN_KEYWORDS && keyword != "anyOf"
    ensures Errors(Only(keyword, j), v, path) <= {SchemaError(path, keyword, "")}
  {
  }

  lemma NamedAnyOf(j: Json, v: Json, path: Path)
    ensures Errors(Only("anyOf", j), v, path) <= {SchemaError(path, "anyOf", "")}
  {
  }

  /** Each missing name is reported by itself, at the object that lacks it. */
  lemma MissingIsNamed(names: seq<string>, m: map<string, Json>, path: Path)
    ensures Errors(Only("required", Texts(names)), JObj(m), path)
            == set name | name in names && name !in m :: SchemaError(path, "required", name)
  {
    var items, s := Texts(names).items, Only("required", Texts(names));
    NothingInside(s, JObj(m), path);
    forall name ensures name in MissingNames(s.m, JObj(m)) <==> name in names && name !in m {
      if name in names && name !in m {
        var i :| 0 <= i < |names| && names[i] == name;
        assert items[i].s == name;
      }
    }
    RequiredLocals(s.m, JObj(m), path);
  }

  lemma RequiredLocals(m: map<string, Json>, v: Json, path: Path)
    requires m.Keys == {"required"}
    ensures LocalErrors(m, v, path) == set name | name in MissingNames(m, v) :: SchemaError(path, "required", name)
  {
  }

  lemma NothingInside(s: Json, v: Json, path: Path)
    requires s.JObj? && s.m.Keys == {"required"}
    ensures Errors(s, v, path) == LocalErrors(s.m, v, path)
  {
  }

  /** Members beyond the named ones are reported once, together, at the object that has them. */
  lemma ExtrasAreNamed(v: Json, path: Path)
    ensures Errors(Only("additionalProperties", JBool(false)), v, path)
            == if v.JObj? && v.m != map[] then {SchemaError(path, "additionalProperties", "")} else {}
  {
    var s := Only("additionalProperties", JBool(false));
    assert Extras(s.m, v) == v.Members().Keys;
    assert LocalErrors(s.m, v, path) == {};
  }
}
