/**
  Correcting the exported contract: scripts/export_spec.py, `_tighten_optional_parameters`. A
  parameter that may be left out is exported as one that may be null; the null branch goes.
 */
module ExportSpec {
  import opened Json
  import opened Schema
  import opened Pointer
  import opened Resolver
  import Meaning

  /** `b.get("type") != "null"`. */
  predicate NonNull(b: Json) { b.Get("type") != Some(JStr("null")) }

  /** An `anyOf` of two branches, exactly one of which is null. */
  predicate Collapsible(s: Json) {
    && s.JObj? && "anyOf" in s.m && s.m["anyOf"].JArr? && |s.m["anyOf"].items| == 2
    && (NonNull(s.m["anyOf"].items[0]) <==> !NonNull(s.m["anyOf"].items[1]))
  }

  /** The branch that stays. */
  function Branch(s: Json): (b: Json)
    requires Collapsible(s)
    ensures b in s.m["anyOf"].items && NonNull(b)
  {
    if NonNull(s.m["anyOf"].items[0]) then s.m["anyOf"].items[0] else s.m["anyOf"].items[1]
  }

  /** The branch that goes. */
  function NullBranch(s: Json): (b: Json)
    requires Collapsible(s)
    ensures b in s.m["anyOf"].items && b.JObj? && "type" in b.m && b.m["type"] == JStr("null")
  {
    if NonNull(s.m["anyOf"].items[0]) then s.m["anyOf"].items[1] else s.m["anyOf"].items[0]
  }

  function Beside(s: Json): map<string, Json>
    requires s.JObj?
  {
    s.m - {"anyOf"}
  }

  function TightenSchema(s: Json): Json {
    if Collapsible(s) && Branch(s).JObj? then JObj(Branch(s).m + Beside(s)) else s
  }

  predicate HasSchema(parameter: Json) {
    parameter.JObj? && "schema" in parameter.m && parameter.m["schema"].JObj?
  }

  function WithSchema(parameter: Json, schema: Json): Json
    requires parameter.JObj?
  {
    JObj(parameter.m["schema" := schema])
  }

  function TightenParameter(parameter: Json): Json {
    if HasSchema(parameter) then WithSchema(parameter, TightenSchema(parameter.m["schema"])) else parameter
  }

  // ----- where parameters are -----

  predicate HasParameters(operation: Json) {
    operation.JObj? && "parameters" in operation.m && operation.m["parameters"].JArr?
  }

  /** The document with every parameter of every operation replaced. */
  function MapParameters(f: Json -> Json, spec: Json): Json {
    if spec.JObj? && "paths" in spec.m && spec.m["paths"].JObj?
    then JObj(spec.m["paths" := MapItems(f, spec.m["paths"].m)])
    else spec
  }

  function MapItems(f: Json -> Json, items: map<string, Json>): Json {
    JObj(map path | path in items :: MapOperations(f, items[path]))
  }

  function MapOperations(f: Json -> Json, item: Json): Json {
    if item.JObj? then JObj(map key | key in item.m :: MapOperation(f, item.m[key])) else item
  }

  function MapOperation(f: Json -> Json, operation: Json): Json {
    if HasParameters(operation)
    then JObj(operation.m["parameters" := JArr(MapEach(f, operation.m["parameters"].items))])
    else operation
  }

  function MapEach(f: Json -> Json, ps: seq<Json>): (qs: seq<Json>)
    ensures |qs| == |ps| && forall i | 0 <= i < |ps| :: qs[i] == f(ps[i])
  {
    seq(|ps|, i requires 0 <= i < |ps| => f(ps[i]))
  }

  /** `_tighten_optional_parameters`. */
  function Tighten(spec: Json): Json { MapParameters(TightenParameter, spec) }

  /** The inner loop, which overwrites the parameters of one operation. */
  method TightenInPlace(parameters: array<Json>)
    modifies parameters
    ensures parameters[..] == MapEach(TightenParameter, old(parameters[..]))
  {
    for i := 0 to parameters.Length
      invariant forall j | 0 <= j < i :: parameters[j] == TightenParameter(old(parameters[j]))
      invariant forall j | i <= j < parameters.Length :: parameters[j] == old(parameters[j])
    {
      var parameter := parameters[i];
      if HasSchema(parameter) {
        var schema := parameter.m["schema"];
        if Collapsible(schema) && Branch(schema).JObj? {
          parameters[i] := JObj(parameter.m["schema" := JObj(Branch(schema).m + Beside(schema))]);
        } else {
          assert parameter.m["schema" := schema] == parameter.m;
        }
      }
    }
  }

  // ----- nothing but parameter schemas changes -----

  lemma MapTwice(f: Json -> Json, g: Json -> Json, h: Json -> Json, spec: Json)
    requires forall p :: g(f(p)) == h(p)
    ensures MapParameters(g, MapParameters(f, spec)) == MapParameters(h, spec)
  {
    if spec.JObj? && "paths" in spec.m && spec.m["paths"].JObj? {
      var items := spec.m["paths"].m;
      forall path | path in items
        ensures MapOperations(g, MapOperations(f, items[path])) == MapOperations(h, items[path])
      {
        MapOperationsTwice(f, g, h, items[path]);
      }
      assert MapItems(g, MapItems(f, items).m) == MapItems(h, items);
      assert spec.m["paths" := MapItems(f, items)]["paths" := MapItems(h, items)]
             == spec.m["paths" := MapItems(h, items)];
    }
  }

  lemma MapOperationsTwice(f: Json -> Json, g: Json -> Json, h: Json -> Json, item: Json)
    requires forall p :: g(f(p)) == h(p)
    ensures MapOperations(g, MapOperations(f, item)) == MapOperations(h, item)
  {
    if item.JObj? {
      forall key | key in item.m
        ensures MapOperation(g, MapOperation(f, item.m[key])) == MapOperation(h, item.m[key])
      {
        MapOperationTwice(f, g, h, item.m[key]);
      }
      assert MapOperations(g, MapOperations(f, item)).m == MapOperations(h, item).m;
    }
  }

  lemma MapOperationTwice(f: Json -> Json, g: Json -> Json, h: Json -> Json, operation: Json)
    requires forall p :: g(f(p)) == h(p)
    ensures MapOperation(g, MapOperation(f, operation)) == MapOperation(h, operation)
  {
    if HasParameters(operation) {
      var ps := operation.m["parameters"].items;
      assert MapEach(g, MapEach(f, ps)) == MapEach(h, ps);
      var m := operation.m["parameters" := JArr(MapEach(f, ps))];
      assert m["parameters" := JArr(MapEach(h, ps))] == operation.m["parameters" := JArr(MapEach(h, ps))];
    }
  }

  /** The parameter with its schema blanked out. */
  function Blank(parameter: Json): Json {
    if HasSchema(parameter) then WithSchema(parameter, JObj(map[])) else parameter
  }

  lemma BlankHidesTightening(p: Json)
    ensures Blank(TightenParameter(p)) == Blank(p)
  {
    if HasSchema(p) {
      var t := TightenSchema(p.m["schema"]);
      assert p.m["schema" := t]["schema" := JObj(map[])] == p.m["schema" := JObj(map[])];
    }
  }

  /** The document is the same but for the schemas of parameters. */
  lemma OnlySchemasChange(spec: Json)
    ensures MapParameters(Blank, Tighten(spec)) == MapParameters(Blank, spec)
  {
    forall p ensures Blank(TightenParameter(p)) == Blank(p) { BlankHidesTightening(p); }
    MapTwice(TightenParameter, Blank, Blank, spec);
  }

  // ----- the same values, but for null -----

  /** Nothing but annotations stands beside the `anyOf`. */
  predicate OnlyAnnotated(s: Json) { s.JObj? && Annotations(Beside(s)) }

  lemma AnnotatedAccepts(m: map<string, Json>, over: map<string, Json>, v: Json)
    requires Annotations(over)
    ensures Accepts(JObj(m + over), v) <==> Accepts(JObj(m), v)
  {
    AnnotationsAreHarmless(m, over, v, []);
    NoErrorsMeansAccepts(JObj(m), v, []);
    NoErrorsMeansAccepts(JObj(m + over), v, []);
  }

  /** A schema of type null accepts nothing else. */
  lemma NullRejects(b: Json, v: Json)
    requires b.JObj? && "type" in b.m && b.m["type"] == JStr("null") && v != JNull
    ensures !Accepts(b, v)
  {
    assert !TypeAllows(b.m["type"], v);
    assert !LocalAccepts(b.m, v);
  }

  lemma BareAnyOf(bs: seq<Json>, v: Json)
    requires |bs| == 2
    ensures Accepts(JObj(map["anyOf" := JArr(bs)]), v) <==> Accepts(bs[0], v) || Accepts(bs[1], v)
  {
    var m := map["anyOf" := JArr(bs)];
    assert LocalAccepts(m, v);
    assert (exists i | 0 <= i < |bs| :: Accepts(bs[i], v)) <==> Accepts(bs[0], v) || Accepts(bs[1], v);
  }

  /** Resolution keeps the type keyword. */
  lemma TypeSurvives(contract: Json, b: Json)
    requires b.JObj? && "type" in b.m && b.m["type"].JStr? && Resolve(contract, b, []).Some?
    ensures var out := Resolve(contract, b, []).value; out.JObj? && "type" in out.m && out.m["type"] == b.m["type"]
  {
    if "$ref" in b.m {
      Follow(contract, b.m, []);
      assert "type" in Siblings(b.m);
    } else {
      Parts(contract, b, []);
    }
  }

  lemma NoReferenceBeside(over: map<string, Json>)
    requires Annotations(over)
    ensures "$ref" !in over
  {
    assert "$ref" in KEYWORDS;
  }

  /** Laying annotations over a schema is laying annotations over what it resolves to. */
  lemma OverlayResolves(contract: Json, b: map<string, Json>, over: map<string, Json>) returns (laid: map<string, Json>)
    requires Annotations(over) && forall k | k in over :: Resolve(contract, over[k], []).Some?
    requires Resolve(contract, JObj(b), []).Some?
    ensures Annotations(laid)
    ensures Resolve(contract, JObj(b + over), []) == Some(JObj(Resolve(contract, JObj(b), []).value.m + laid))
  {
    NoReferenceBeside(over);
    if "$ref" in b {
      laid := over;
      ReferenceOverlaid(contract, b, over);
    } else {
      laid := map k | k in over :: Resolve(contract, over[k], []).value;
      ObjectOverlaid(contract, b, over, laid);
    }
  }

  lemma ObjectOverlaid(contract: Json, b: map<string, Json>, over: map<string, Json>, laid: map<string, Json>)
    requires "$ref" !in b && "$ref" !in over && Resolve(contract, JObj(b), []).Some?
    requires laid.Keys == over.Keys && forall k | k in over :: Resolve(contract, over[k], []) == Some(laid[k])
    ensures Resolve(contract, JObj(b + over), []) == Some(JObj(Resolve(contract, JObj(b), []).value.m + laid))
  {
    Parts(contract, JObj(b), []);
    ObjectResolves(contract, b + over, Resolve(contract, JObj(b), []).value.m + laid, []);
  }

  lemma SiblingsOverlaid(t: map<string, Json>, b: map<string, Json>, over: map<string, Json>)
    requires "$ref" in b && "$ref" !in over
    ensures (b + over)["$ref"] == b["$ref"]
    ensures t + Siblings(b + over) == t + Siblings(b) + over
  {
  }

  lemma ReferenceOverlaid(contract: Json, b: map<string, Json>, over: map<string, Json>)
    requires "$ref" in b && "$ref" !in over && Resolve(contract, JObj(b), []).Some?
    ensures Resolve(contract, JObj(b + over), []) == Some(JObj(Resolve(contract, JObj(b), []).value.m + over))
  {
    Follow(contract, b, []);
    var ref := b["$ref"].s;
    var t := Resolve(contract, ResolveRef(contract, ref).value, [] + [ref]).value;
    SiblingsOverlaid(t.m, b, over);
    FollowsSame(contract, b + over, ref, ResolveRef(contract, ref).value, t.m);
  }

  lemma FollowsSame(contract: Json, m: map<string, Json>, ref: string, target: Json, t: map<string, Json>)
    requires "$ref" in m && m["$ref"] == JStr(ref) && ResolveRef(contract, ref) == Ok(target)
    requires Resolve(contract, target, [] + [ref]) == Some(JObj(t))
    ensures Resolve(contract, JObj(m), []) == Some(JObj(t + Siblings(m)))
  {
  }

  /** The two branches of a resolved schema, and what stands beside them. */
  lemma BranchesResolve(contract: Json, s: Json)
    requires Collapsible(s) && "$ref" !in s.m && Resolve(contract, s, []).Some?
    ensures Resolve(contract, Branch(s), []).Some? && Resolve(contract, NullBranch(s), []).Some?
    ensures forall k | k in Beside(s) :: Resolve(contract, s.m[k], []).Some?
    ensures var out := Resolve(contract, s, []).value;
      && out.JObj? && "anyOf" in out.m && out.m["anyOf"].JArr? && |out.m["anyOf"].items| == 2
      && Resolve(contract, JObj(Beside(s)), []) == Some(JObj(out.m - {"anyOf"}))
      && (out.m - {"anyOf"}).Keys == Beside(s).Keys
      && var r0, r1 := out.m["anyOf"].items[0], out.m["anyOf"].items[1];
         var kept, gone := Resolve(contract, Branch(s), []).value, Resolve(contract, NullBranch(s), []).value;
         (r0 == kept && r1 == gone) || (r0 == gone && r1 == kept)
  {
    Parts(contract, s, []);
    Parts(contract, s.m["anyOf"], []);
    var out := Resolve(contract, s, []).value.m;
    assert (out - {"anyOf"}).Keys == Beside(s).Keys;
    ObjectResolves(contract, Beside(s), out - {"anyOf"}, []);
  }

  /** What the schema accepted before: null, or what the branch that stays and the rest both accept. */
  lemma AcceptedBefore(contract: Json, s: Json, v: Json)
    requires Collapsible(s) && "$ref" !in s.m && Resolve(contract, s, []).Some? && v != JNull
    ensures Resolve(contract, Branch(s), []).Some? && Resolve(contract, JObj(Beside(s)), []).Some?
    ensures Accepts(Resolve(contract, s, []).value, v)
            <==> && Accepts(Resolve(contract, Branch(s), []).value, v)
                 && Accepts(Resolve(contract, JObj(Beside(s)), []).value, v)
  {
    BranchesResolve(contract, s);
    TypeSurvives(contract, NullBranch(s));
    NullRejects(Resolve(contract, NullBranch(s), []).value, v);
    AnyOfBeside(Resolve(contract, s, []).value.m, v);
  }

  /** An `anyOf` of two and what stands beside it conjoin. */
  lemma AnyOfBeside(m: map<string, Json>, v: Json)
    requires "anyOf" in m && m["anyOf"].JArr? && |m["anyOf"].items| == 2
    ensures Accepts(JObj(m), v)
            <==> && (Accepts(m["anyOf"].items[0], v) || Accepts(m["anyOf"].items[1], v))
                 && Accepts(JObj(m - {"anyOf"}), v)
  {
    var s, rest := map["anyOf" := m["anyOf"]], m - {"anyOf"};
    BareAnyOf(m["anyOf"].items, v);
    if "$ref" !in rest {
      assert m == s + rest;
      DisjointConjoin(s, rest, v);
    }
  }

  /** The rewritten schema resolves to the branch with the rest laid over it. */
  lemma RewrittenResolves(contract: Json, s: Json)
    requires Collapsible(s) && Branch(s).JObj? && "$ref" !in s.m && Resolve(contract, s, []).Some?
    requires "$ref" in Branch(s).m ==> RefFree(JObj(Beside(s)))
    ensures Resolve(contract, Branch(s), []).Some? && Resolve(contract, JObj(Beside(s)), []).Some?
    ensures Resolve(contract, TightenSchema(s), [])
            == Some(JObj(Resolve(contract, Branch(s), []).value.m + Resolve(contract, JObj(Beside(s)), []).value.m))
  {
    BranchesResolve(contract, s);
    var b, over := Branch(s).m, Beside(s);
    if "$ref" in b {
      RefFreeIsFixed(contract, JObj(over), []);
      ReferenceOverlaid(contract, b, over);
    } else {
      ObjectOverlaid(contract, b, over, Resolve(contract, s, []).value.m - {"anyOf"});
    }
  }

  /**
    The rewrite changes no verdict on a value but null exactly when nothing that matters for the
    value was lost or added by laying the keys beside the `anyOf` over the branch that stays.
   */
  lemma TighteningIsExact(contract: Json, s: Json, v: Json)
    requires Collapsible(s) && Branch(s).JObj? && "$ref" !in s.m && Resolve(contract, s, []).Some?
    requires "$ref" in Branch(s).m ==> RefFree(JObj(Beside(s)))
    requires v != JNull
    ensures Resolve(contract, TightenSchema(s), []).Some?
    ensures Resolve(contract, Branch(s), []).Some? && Resolve(contract, JObj(Beside(s)), []).Some?
    ensures var before, after := Resolve(contract, s, []).value, Resolve(contract, TightenSchema(s), []).value;
      var b, over := Resolve(contract, Branch(s), []).value.m, Resolve(contract, JObj(Beside(s)), []).value.m;
      && ((Accepts(after, v) <==> Accepts(before, v))
          <==> (Accepts(after, v) ==> Lost(b, over, v)) && (Accepts(before, v) ==> Added(b, over, v)))
      && (Disjoint(b, over) ==> (Accepts(after, v) <==> Accepts(before, v)))
  {
    RewrittenResolves(contract, s);
    AcceptedBefore(contract, s, v);
    var b, over := Resolve(contract, Branch(s), []).value.m, Resolve(contract, JObj(Beside(s)), []).value.m;
    BranchesResolve(contract, s);
    OverlayIsConjunctionIff(b, over, v);
    if Disjoint(b, over) { DisjointConjoin(b, over, v); }
  }

  /**
    With nothing but annotations beside the `anyOf`, the rewritten schema resolves, accepts exactly
    what the branch that stayed accepts, and so every value but null that was accepted before.
   */
  lemma TighteningKeepsMeaning(contract: Json, s: Json, v: Json)
    requires Collapsible(s) && Branch(s).JObj? && OnlyAnnotated(s) && Resolve(contract, s, []).Some?
    ensures Resolve(contract, Branch(s), []).Some? && Resolve(contract, TightenSchema(s), []).Some?
    ensures var before, after := Resolve(contract, s, []).value, Resolve(contract, TightenSchema(s), []).value;
      && (Accepts(after, v) <==> Accepts(Resolve(contract, Branch(s), []).value, v))
      && (v != JNull ==> (Accepts(after, v) <==> Accepts(before, v)))
  {
    NoReferenceBeside(Beside(s));
    BranchesResolve(contract, s);
    var branch := Resolve(contract, Branch(s), []).value;
    if v != JNull {
      AcceptedBefore(contract, s, v);
      AnnotationsAccept(Resolve(contract, JObj(Beside(s)), []).value.m, v);
    }
    var laid := OverlayResolves(contract, Branch(s).m, Beside(s));
    AnnotatedAccepts(branch.m, laid, v);
  }

  /** Annotations alone accept everything. */
  lemma AnnotationsAccept(m: map<string, Json>, v: Json)
    requires Annotations(m)
    ensures Accepts(JObj(m), v)
  {
    AnnotatedAccepts(map[], m, v);
    assert map[] + m == m;
    assert LocalAccepts(map[], v);
  }

  /** A keyword beside the `anyOf` is another matter: it replaces the branch's own. */
  lemma KeywordsBesideReplace()
    ensures var short := JObj(map["maxLength" := JInt(2)]);
      var s := JObj(map["anyOf" := JArr([short, JObj(map["type" := JStr("null")])]), "maxLength" := JInt(5)]);
      !Accepts(s, JStr("abc")) && Accepts(TightenSchema(s), JStr("abc"))
  {
    var short, nothing := JObj(map["maxLength" := JInt(2)]), JObj(map["type" := JStr("null")]);
    Meaning.OnlyLength(2, "abc");
    Meaning.OnlyLength(5, "abc");
    NullRejects(nothing, JStr("abc"));
    NoneAccepts([short, nothing], map["anyOf" := JArr([short, nothing]), "maxLength" := JInt(5)], JStr("abc"));
    LengthsSwap(short, nothing, 5);
  }

  lemma NoneAccepts(bs: seq<Json>, m: map<string, Json>, v: Json)
    requires "anyOf" in m && m["anyOf"] == JArr(bs) && |bs| == 2 && !Accepts(bs[0], v) && !Accepts(bs[1], v)
    ensures !Accepts(JObj(m), v)
  {
  }

  lemma LengthsSwap(branch: Json, nothing: Json, n: int)
    requires branch.JObj? && branch.m.Keys == {"maxLength"} && nothing == JObj(map["type" := JStr("null")])
    ensures var s := JObj(map["anyOf" := JArr([branch, nothing]), "maxLength" := JInt(n)]);
            TightenSchema(s) == JObj(map["maxLength" := JInt(n)])
  {
    var s := JObj(map["anyOf" := JArr([branch, nothing]), "maxLength" := JInt(n)]);
    assert [branch, nothing][0] == branch && [branch, nothing][1] == nothing;
    assert Branch(s) == branch;
    assert branch.m + Beside(s) == map["maxLength" := JInt(n)];
  }

  // ----- a second pass -----

  /** The branch that stayed is itself such an `anyOf`. */
  predicate Nested(s: Json) {
    Collapsible(s) && Branch(s).JObj? && Collapsible(Branch(s)) && Branch(Branch(s)).JObj?
  }

  lemma TightenAgain(s: Json)
    ensures TightenSchema(TightenSchema(s)) == TightenSchema(s) <==> !Nested(s)
  {
    if Collapsible(s) && Branch(s).JObj? {
      var t := TightenSchema(s);
      assert "anyOf" in t.m <==> "anyOf" in Branch(s).m;
      assert Collapsible(t) <==> Collapsible(Branch(s));
      if Collapsible(t) {
        assert Branch(t) == Branch(Branch(s));
        if Branch(t).JObj? { CollapsingChanges(t); }
      }
    }
  }

  /** A schema is never its own branch. */
  lemma CollapsingChanges(t: Json)
    requires Collapsible(t) && Branch(t).JObj?
    ensures TightenSchema(t) != t
  {
    var b := Branch(t);
    if "anyOf" in b.m {
      SmallerBranch(t, b);
      assert TightenSchema(t).m["anyOf"] == b.m["anyOf"];
    }
  }

  lemma SmallerBranch(t: Json, b: Json)
    requires t.JObj? && "anyOf" in t.m && t.m["anyOf"].JArr? && b in t.m["anyOf"].items
    requires b.JObj? && "anyOf" in b.m
    ensures b.m["anyOf"] != t.m["anyOf"]
  {
    var list := t.m["anyOf"];
    var i :| 0 <= i < |list.items| && list.items[i] == b;
    assert b < list;
    assert b.m["anyOf"] < b;
  }

  // ----- the whole document -----

  /** Every parameter of every operation satisfies p. */
  ghost predicate EachParameter(spec: Json, p: Json -> bool) {
    spec.JObj? && "paths" in spec.m && spec.m["paths"].JObj? ==>
      forall path | path in spec.m["paths"].m :: EachInItem(spec.m["paths"].m[path], p)
  }

  ghost predicate EachInItem(item: Json, p: Json -> bool) {
    item.JObj? ==> forall key | key in item.m :: EachInOperation(item.m[key], p)
  }

  ghost predicate EachInOperation(operation: Json, p: Json -> bool) {
    HasParameters(operation) ==>
      forall i | 0 <= i < |operation.m["parameters"].items| :: p(operation.m["parameters"].items[i])
  }

  lemma SameMaps(f: Json -> Json, g: Json -> Json, p: Json -> bool, spec: Json)
    requires forall j :: p(j) <==> f(j) == g(j)
    ensures MapParameters(f, spec) == MapParameters(g, spec) <==> EachParameter(spec, p)
  {
    if spec.JObj? && "paths" in spec.m && spec.m["paths"].JObj? {
      var items := spec.m["paths"].m;
      forall path | path in items
        ensures MapOperations(f, items[path]) == MapOperations(g, items[path]) <==> EachInItem(items[path], p)
      {
        SameInItem(f, g, p, items[path]);
      }
      var a, b := MapItems(f, items), MapItems(g, items);
      assert a == b <==> forall path | path in items :: a.m[path] == b.m[path] by {
        if forall path | path in items :: a.m[path] == b.m[path] { assert a.m == b.m; }
      }
      assert spec.m["paths" := a]["paths"] == a && spec.m["paths" := b]["paths"] == b;
    }
  }

  lemma SameInItem(f: Json -> Json, g: Json -> Json, p: Json -> bool, item: Json)
    requires forall j :: p(j) <==> f(j) == g(j)
    ensures MapOperations(f, item) == MapOperations(g, item) <==> EachInItem(item, p)
  {
    if item.JObj? {
      forall key | key in item.m
        ensures MapOperation(f, item.m[key]) == MapOperation(g, item.m[key]) <==> EachInOperation(item.m[key], p)
      {
        SameInOperation(f, g, p, item.m[key]);
      }
      var a, b := MapOperations(f, item), MapOperations(g, item);
      assert a == b <==> forall key | key in item.m :: a.m[key] == b.m[key] by {
        if forall key | key in item.m :: a.m[key] == b.m[key] { assert a.m == b.m; }
      }
    }
  }

  lemma SameInOperation(f: Json -> Json, g: Json -> Json, p: Json -> bool, operation: Json)
    requires forall j :: p(j) <==> f(j) == g(j)
    ensures MapOperation(f, operation) == MapOperation(g, operation) <==> EachInOperation(operation, p)
  {
    if HasParameters(operation) {
      var ps := operation.m["parameters"].items;
      var a, b := MapEach(f, ps), MapEach(g, ps);
      assert a == b <==> forall i | 0 <= i < |ps| :: a[i] == b[i];
      assert operation.m["parameters" := JArr(a)]["parameters"] == JArr(a);
      assert operation.m["parameters" := JArr(b)]["parameters"] == JArr(b);
    }
  }

  /** The parameter's schema does not keep a branch that would collapse again. */
  predicate Settled(parameter: Json) { HasSchema(parameter) ==> !Nested(parameter.m["schema"]) }

  lemma TightenParameterAgain(p: Json)
    ensures Settled(p) <==> TightenParameter(TightenParameter(p)) == TightenParameter(p)
  {
    if HasSchema(p) {
      var s := p.m["schema"];
      TightenAgain(s);
      var once, twice := TightenSchema(s), TightenSchema(TightenSchema(s));
      assert p.m["schema" := once]["schema" := twice] == p.m["schema" := twice];
      assert p.m["schema" := once]["schema"] == once && p.m["schema" := twice]["schema"] == twice;
    }
  }

  /** Running the correction again changes nothing exactly when no kept branch is itself such an `anyOf`. */
  lemma SecondPass(spec: Json)
    ensures Tighten(Tighten(spec)) == Tighten(spec) <==> EachParameter(spec, Settled)
  {
    var twice := p => TightenParameter(TightenParameter(p));
    forall p ensures Settled(p) <==> twice(p) == TightenParameter(p) { TightenParameterAgain(p); }
    MapTwice(TightenParameter, TightenParameter, twice, spec);
    SameMaps(twice, TightenParameter, Settled, spec);
  }
}
