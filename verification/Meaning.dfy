/**
  Resolution preserves meaning. The reference definition is a lazy evaluator: it follows a
  reference only when validation reaches it, and lets the keys beside the reference win.
 */
module Meaning {
  import opened Json
  import opened Pointer
  import opened Resolver
  import opened Schema

  /** The keywords that apply at a schema once its references are followed, and those followed. */
  datatype Unfolded = Stuck | Unfolded(m: map<string, Json>, seen: set<string>)

  lemma MergedRefs(t: map<string, Json>, m: map<string, Json>)
    ensures Refs(JObj(t + Siblings(m))) <= Refs(JObj(t)) + Refs(JObj(m))
  {
  }

  /** Stuck when a reference does not resolve or leads back to itself. */
  function Unfold(contract: Json, m: map<string, Json>, seen: set<string>): (r: Unfolded)
    ensures r.Unfolded? ==> "$ref" !in r.m && seen <= r.seen
    ensures r.Unfolded? ==> Refs(JObj(r.m)) <= Refs(contract) + Refs(JObj(m))
    ensures r.Unfolded? && "$ref" in m ==> m["$ref"].JStr? && m["$ref"].s in r.seen - seen
    ensures "$ref" !in m ==> r == Unfolded(m, seen)
    decreases Refs(contract) + Refs(JObj(m)) - seen
  {
    if "$ref" !in m then Unfolded(m, seen)
    else if !m["$ref"].JStr? || m["$ref"].s in seen then Stuck
    else
      var ref := m["$ref"].s;
      match ResolveRef(contract, ref)
      case Err(_) => Stuck
      case Ok(target) =>
        TargetRefs(contract, ref);
        assert ref in Refs(JObj(m)) - seen;
        assert target == JObj(target.m);
        match Unfold(contract, target.m, seen + {ref})
        case Stuck => Stuck
        case Unfolded(t, seen') =>
          MergedRefs(t, m);
          Unfolded(t + Siblings(m), seen')
  }

  /** The errors of `v` under `s`, references followed on demand. `seen` guards this value only. */
  function LazyErrors(contract: Json, s: Json, v: Json, path: Path, seen: set<string>): set<SchemaError>
    decreases v, 1, Refs(contract) + Refs(s) - seen, s
  {
    match s
    case JBool(b) => When(!b, path, "")
    case JObj(m) =>
      (match Unfold(contract, m, seen)
       case Stuck => {SchemaError(path, "$ref", "")}
       case Unfolded(e, seen') =>
         LocalErrors(e, v, path) + LazyPropertyErrors(contract, e, v, path)
         + LazyExtraErrors(contract, e, v, path) + LazyItemErrors(contract, e, v, path)
         + if "anyOf" in e && e["anyOf"].JArr?
           then
             assert Refs(e["anyOf"]) <= Refs(JObj(e));
             When(NoBranchAccepts(contract, e["anyOf"], v, path, seen'), path, "anyOf")
           else {})
    case _ => {}
  }

  predicate NoBranchAccepts(contract: Json, branches: Json, v: Json, path: Path, seen: set<string>)
    requires branches.JArr?
    decreases v, 1, Refs(contract) + Refs(branches) - seen, branches
  {
    forall i | 0 <= i < |branches.items| :: LazyErrors(contract, branches.items[i], v, path, seen) != {}
  }

  function LazyPropertyErrors(contract: Json, e: map<string, Json>, v: Json, path: Path): set<SchemaError>
    decreases v, 0
  {
    if "properties" in e && e["properties"].JObj? && v.JObj? then
      var ps := e["properties"].m;
      set k, x | k in ps && k in v.m && x in LazyErrors(contract, ps[k], v.m[k], path + [Key(k)], {}) :: x
    else {}
  }

  function LazyExtraErrors(contract: Json, e: map<string, Json>, v: Json, path: Path): set<SchemaError>
    decreases v, 0
  {
    if "additionalProperties" in e && v.JObj? then
      var ap := e["additionalProperties"];
      if ap.JObj? then
        set k, x | k in Extras(e, v) && k in v.m
                   && x in LazyErrors(contract, ap, v.m[k], path + [Key(k)], {}) :: x
      else When(ap == JBool(false) && Extras(e, v) != {}, path, "additionalProperties")
    else {}
  }

  function LazyItemErrors(contract: Json, e: map<string, Json>, v: Json, path: Path): set<SchemaError>
    decreases v, 0
  {
    if "items" in e && v.JArr? then
      var item := e["items"];
      if item == JBool(false) then When(v.items != [], path, "items")
      else set i, x | 0 <= i < |v.items|
                      && x in LazyErrors(contract, item, v.items[i], path + [Index(i)], {}) :: x
    else {}
  }

  // ----- schemas and references -----

  /** No property is called "$ref": the resolver would take the property map for a reference. */
  predicate Shaped(s: Json) {
    s.JObj? ==>
      && ("properties" in s.m && s.m["properties"].JObj? ==>
            && "$ref" !in s.m["properties"].m
            && forall k | k in s.m["properties"].m :: Shaped(s.m["properties"].m[k]))
      && ("items" in s.m ==> Shaped(s.m["items"]))
      && ("additionalProperties" in s.m ==> Shaped(s.m["additionalProperties"]))
      && ("anyOf" in s.m && s.m["anyOf"].JArr? ==>
            forall i | 0 <= i < |s.m["anyOf"].items| :: Shaped(s.m["anyOf"].items[i]))
  }

  /** Every reference inside j is a string among refs. */
  predicate RefersIn(j: Json, refs: set<string>) {
    match j
    case JArr(xs) => forall i | 0 <= i < |xs| :: RefersIn(xs[i], refs)
    case JObj(m) =>
      && ("$ref" in m ==> m["$ref"].JStr? && m["$ref"].s in refs)
      && forall k | k in m :: RefersIn(m[k], refs)
    case _ => true
  }

  /** These references lead to schemas that hold no others. */
  ghost predicate ResolvesAll(contract: Json, refs: set<string>) {
    forall r | r in refs ::
      && ResolveRef(contract, r).Ok?
      && RefersIn(ResolveRef(contract, r).value, refs) && Shaped(ResolveRef(contract, r).value)
  }

  /** What the theorem needs of a schema: references that resolve, and no property called "$ref". */
  ghost predicate Ready(contract: Json, refs: set<string>, s: Json) {
    ResolvesAll(contract, refs) && RefersIn(s, refs) && Shaped(s)
  }

  // ----- where validation leaves what the resolver preserves -----

  /** The references that unfolding m follows have nothing beside them that holds a reference. */
  predicate PlainChain(contract: Json, m: map<string, Json>, seen: set<string>)
    decreases Refs(contract) + Refs(JObj(m)) - seen
  {
    "$ref" in m && m["$ref"].JStr? && m["$ref"].s !in seen && ResolveRef(contract, m["$ref"].s).Ok? ==>
      && (forall k | k in m && k != "$ref" :: RefFree(m[k]))
      && (TargetRefs(contract, m["$ref"].s);
          assert m["$ref"].s in Refs(JObj(m)) - seen;
          var target := ResolveRef(contract, m["$ref"].s).value;
          assert target == JObj(target.m);
          PlainChain(contract, target.m, seen + {m["$ref"].s}))
  }

  /**
    Validating v against s, references followed on demand, strays: it comes back to a reference that
    it is inside of, to an `enum` list that holds a reference, or to a reference beside a reference.
    `seen` are the references it is inside of.
   */
  predicate Strays(contract: Json, s: Json, v: Json, seen: set<string>)
    decreases v, 1, Refs(contract) + Refs(s) - seen, s
  {
    s.JObj? &&
    match Unfold(contract, s.m, seen)
    case Stuck => true
    case Unfolded(e, seen') =>
      || !PlainChain(contract, s.m, seen)
      || ("enum" in e && e["enum"].JArr? && !RefFree(e["enum"]))
      || StraysInMembers(contract, e, v, seen') || StraysInItems(contract, e, v, seen')
      || ("anyOf" in e && e["anyOf"].JArr? &&
          (assert s == JObj(s.m);
           assert Refs(e["anyOf"]) <= Refs(JObj(e));
           StraysInBranches(contract, e["anyOf"], v, seen')))
  }

  predicate StraysInBranches(contract: Json, branches: Json, v: Json, seen: set<string>)
    requires branches.JArr?
    decreases v, 1, Refs(contract) + Refs(branches) - seen, branches
  {
    exists i | 0 <= i < |branches.items| :: Strays(contract, branches.items[i], v, seen)
  }

  predicate StraysInMembers(contract: Json, e: map<string, Json>, v: Json, seen: set<string>)
    decreases v, 0
  {
    v.JObj? &&
    exists k | k in v.m ::
      || ("properties" in e && e["properties"].JObj? && k in e["properties"].m
          && Strays(contract, e["properties"].m[k], v.m[k], seen))
      || ("additionalProperties" in e && k in Extras(e, v)
          && Strays(contract, e["additionalProperties"], v.m[k], seen))
  }

  predicate StraysInItems(contract: Json, e: map<string, Json>, v: Json, seen: set<string>)
    decreases v, 0
  {
    "items" in e && v.JArr? && exists i | 0 <= i < |v.items| :: Strays(contract, e["items"], v.items[i], seen)
  }

  // ----- what unfolding and resolving have in common -----

  lemma MergedReady(contract: Json, refs: set<string>, t: map<string, Json>, m: map<string, Json>)
    requires Ready(contract, refs, JObj(t)) && Ready(contract, refs, JObj(m)) && "$ref" !in t
    ensures Ready(contract, refs, JObj(t + Siblings(m)))
  {
    var e := t + Siblings(m);
    forall k | k in e ensures RefersIn(e[k], refs) { assert e[k] == if k in Siblings(m) then m[k] else t[k]; }
    MergedIsShaped(t, m);
  }

  lemma MergedIsShaped(t: map<string, Json>, m: map<string, Json>)
    requires Shaped(JObj(t)) && Shaped(JObj(m))
    ensures Shaped(JObj(t + Siblings(m)))
  {
    var a, b, c := JObj(t), JObj(m), JObj(t + Siblings(m));
    forall k | k in c.m ensures c.m[k] == if k in Siblings(m) then b.m[k] else a.m[k] {
    }
  }

  /** One step of unfolding. */
  lemma UnfoldReference(contract: Json, m: map<string, Json>, seen: set<string>, target: Json)
    requires "$ref" in m && m["$ref"].JStr? && m["$ref"].s !in seen
    requires ResolveRef(contract, m["$ref"].s) == Ok(target) && target.JObj?
    requires Unfold(contract, target.m, seen + {m["$ref"].s}).Unfolded?
    ensures var u := Unfold(contract, target.m, seen + {m["$ref"].s});
            Unfold(contract, m, seen) == Unfolded(u.m + Siblings(m), u.seen)
  {
  }

  /** With fewer references seen, unfolding comes to the same keywords. */
  lemma {:induction false} UnfoldFewer(contract: Json, m: map<string, Json>, seen: set<string>, more: set<string>)
    requires seen <= more && Unfold(contract, m, more).Unfolded?
    ensures Unfold(contract, m, seen).Unfolded?
    ensures Unfold(contract, m, seen).m == Unfold(contract, m, more).m
    ensures Unfold(contract, m, seen).seen <= Unfold(contract, m, more).seen
    decreases Refs(contract) + Refs(JObj(m)) - more
  {
    if "$ref" in m {
      var ref := m["$ref"].s;
      var target := ResolveRef(contract, ref).value;
      TargetRefs(contract, ref);
      assert ref in Refs(JObj(m)) - more;
      assert target == JObj(target.m);
      UnfoldFewer(contract, target.m, seen + {ref}, more + {ref});
      UnfoldReference(contract, m, seen, target);
    }
  }

  lemma PushedRef(stack: seq<string>, ref: string)
    ensures OnStack(stack + [ref]) == OnStack(stack) + {ref}
  {
  }

  /** A schema whose references resolve resolves, under any stack. */
  lemma {:induction false} ReadyResolves(contract: Json, refs: set<string>, s: Json, stack: seq<string>)
    requires ResolvesAll(contract, refs) && RefersIn(s, refs)
    ensures Resolve(contract, s, stack).Some?
    decreases Open(contract, s, stack), s, 1
  {
    if s.JObj? && "$ref" in s.m {
      assert s == JObj(s.m);
      ReferenceResolves(contract, refs, s.m, stack);
    } else if s.JObj? {
      forall k | k in s.m ensures Resolve(contract, s.m[k], stack).Some? {
        ReadyResolves(contract, refs, s.m[k], stack);
      }
    } else if s.JArr? {
      forall i | 0 <= i < |s.items| ensures Resolve(contract, s.items[i], stack).Some? {
        ReadyResolves(contract, refs, s.items[i], stack);
      }
    }
  }

  lemma {:induction false} ReferenceResolves(contract: Json, refs: set<string>, m: map<string, Json>,
      stack: seq<string>)
    requires ResolvesAll(contract, refs) && RefersIn(JObj(m), refs) && "$ref" in m
    ensures Resolve(contract, JObj(m), stack).Some?
    decreases Open(contract, JObj(m), stack), JObj(m), 0
  {
    var ref := m["$ref"].s;
    if ref !in stack {
      var target := ResolveRef(contract, ref).value;
      TargetRefs(contract, ref);
      assert ref in Open(contract, JObj(m), stack) && ref !in Open(contract, target, stack + [ref]);
      ReadyResolves(contract, refs, target, stack + [ref]);
    }
  }

  /**
    What is unfolded resolves, under the stack of the references followed, to what the schema itself
    resolves to.
   */
  lemma {:induction false} UnfoldResolves(contract: Json, refs: set<string>, m: map<string, Json>, stack: seq<string>)
    returns (inner: seq<string>)
    requires Ready(contract, refs, JObj(m))
    requires Unfold(contract, m, OnStack(stack)).Unfolded? && PlainChain(contract, m, OnStack(stack))
    ensures var u := Unfold(contract, m, OnStack(stack));
      && Ready(contract, refs, JObj(u.m)) && OnStack(inner) == u.seen
      && Resolve(contract, JObj(u.m), inner) == Resolve(contract, JObj(m), stack)
    ensures "$ref" !in m ==> inner == stack
    decreases Refs(contract) + Refs(JObj(m)) - OnStack(stack)
  {
    if "$ref" !in m {
      inner := stack;
    } else {
      var ref := m["$ref"].s;
      var target := ResolveRef(contract, ref).value;
      TargetRefs(contract, ref);
      PushedRef(stack, ref);
      assert ref in Refs(JObj(m)) - OnStack(stack);
      assert target == JObj(target.m);
      inner := UnfoldResolves(contract, refs, target.m, stack + [ref]);
      UnfoldReference(contract, m, OnStack(stack), target);
      var t := Unfold(contract, target.m, OnStack(stack + [ref])).m;
      MergedReady(contract, refs, t, m);
      ReadyResolves(contract, refs, JObj(t), inner);
      ReadyResolves(contract, refs, JObj(m), stack);
      MergedResolves(contract, t, m, inner);
      Follow(contract, m, stack);
    }
  }

  /** Siblings without references lie over what is resolved as they lay over what is not. */
  lemma MergedResolves(contract: Json, t: map<string, Json>, m: map<string, Json>, stack: seq<string>)
    requires "$ref" !in t && Resolve(contract, JObj(t), stack).Some?
    requires forall k | k in m && k != "$ref" :: RefFree(m[k])
    ensures Resolve(contract, JObj(t + Siblings(m)), stack)
            == Some(JObj(Resolve(contract, JObj(t), stack).value.m + Siblings(m)))
  {
    Parts(contract, JObj(t), stack);
    var out := Resolve(contract, JObj(t), stack).value.m;
    var e, merged := t + Siblings(m), out + Siblings(m);
    forall k | k in e ensures Resolve(contract, e[k], stack) == Some(merged[k]) {
      if k in Siblings(m) { RefFreeIsFixed(contract, m[k], stack); }
    }
    ObjectResolves(contract, e, merged, stack);
  }

  /** Resolution keeps the kind of every value, and scalars altogether. */
  lemma KindKept(contract: Json, j: Json, stack: seq<string>)
    requires Resolve(contract, j, stack).Some?
    ensures var out := Resolve(contract, j, stack).value;
            if j.JObj? then out.JObj? else if j.JArr? then out.JArr? && |out.items| == |j.items| else out == j
  {
  }

  /** The same scalar, or two objects, or two lists with the same strings in the same places. */
  predicate SameKind(a: Json, b: Json) {
    if a.JObj? then b.JObj? else if a.JArr? then b.JArr? && SameStrings(a.items, b.items) else a == b
  }

  lemma SameKindsSameLocals(e: map<string, Json>, out: map<string, Json>, v: Json, path: Path)
    requires e.Keys == out.Keys
    requires forall k | k in e :: SameKind(e[k], out[k])
    requires "enum" in e && e["enum"].JArr? ==> out["enum"] == e["enum"]
    ensures LocalErrors(out, v, path) == LocalErrors(e, v, path)
  {
    if "type" in e { TypeKept(e["type"], out["type"], v); }
    BoundKept(e, out, "minLength", v);
    BoundKept(e, out, "maxLength", v);
    BoundKept(e, out, "minimum", v);
    BoundKept(e, out, "maximum", v);
    MissingKept(e, out, v);
  }

  lemma TypeKept(a: Json, b: Json, v: Json)
    requires SameKind(a, b)
    ensures TypeAllows(a, v) == TypeAllows(b, v)
  {
  }

  lemma BoundKept(e: map<string, Json>, out: map<string, Json>, keyword: string, v: Json)
    requires e.Keys == out.Keys
    requires forall k | k in e :: SameKind(e[k], out[k])
    ensures LengthAllows(e, keyword, v) == LengthAllows(out, keyword, v)
    ensures RangeAllows(e, keyword, v) == RangeAllows(out, keyword, v)
  {
  }

  predicate SameStrings(xs: seq<Json>, ys: seq<Json>) {
    |xs| == |ys| && forall i | 0 <= i < |xs| :: (xs[i].JStr? || ys[i].JStr?) ==> xs[i] == ys[i]
  }

  lemma ListStringsKept(contract: Json, j: Json, stack: seq<string>)
    requires j.JArr? && Resolve(contract, j, stack).Some?
    ensures Resolve(contract, j, stack).value.JArr?
    ensures SameStrings(j.items, Resolve(contract, j, stack).value.items)
  {
    Parts(contract, j, stack);
    forall i | 0 <= i < |j.items|
      ensures (j.items[i].JStr? || Resolve(contract, j.items[i], stack).value.JStr?)
              ==> j.items[i] == Resolve(contract, j.items[i], stack).value
    {
      KindKept(contract, j.items[i], stack);
    }
  }

  lemma MissingKept(e: map<string, Json>, out: map<string, Json>, v: Json)
    requires e.Keys == out.Keys
    requires "required" in e ==> (e["required"].JArr? <==> out["required"].JArr?)
    requires "required" in e && e["required"].JArr? ==> SameStrings(e["required"].items, out["required"].items)
    ensures MissingNames(e, v) == MissingNames(out, v)
  {
  }

  // ----- the theorem -----

  /** What resolving a schema without "$ref" makes of its keywords. */
  ghost predicate Keywise(contract: Json, e: map<string, Json>, out: map<string, Json>, stack: seq<string>) {
    && "$ref" !in e && out.Keys == e.Keys
    && forall k | k in e :: SameKind(e[k], out[k]) && Resolve(contract, e[k], stack) == Some(out[k])
  }

  lemma ReadyParts(contract: Json, refs: set<string>, e: map<string, Json>, stack: seq<string>)
    requires Ready(contract, refs, JObj(e)) && "$ref" !in e
    ensures Resolve(contract, JObj(e), stack).Some?
    ensures Keywise(contract, e, Resolve(contract, JObj(e), stack).value.m, stack)
  {
    ReadyResolves(contract, refs, JObj(e), stack);
    Parts(contract, JObj(e), stack);
    forall k | k in e ensures SameKind(e[k], Resolve(contract, JObj(e), stack).value.m[k]) {
      KindKept(contract, e[k], stack);
      if e[k].JArr? { ListStringsKept(contract, e[k], stack); }
    }
  }

  /** Keywords that look at the value itself read the same after resolution. */
  lemma LocalKept(contract: Json, e: map<string, Json>, out: map<string, Json>, stack: seq<string>, v: Json, path: Path)
    requires Keywise(contract, e, out, stack) && ("enum" in e && e["enum"].JArr? ==> RefFree(e["enum"]))
    ensures LocalErrors(out, v, path) == LocalErrors(e, v, path)
  {
    if "enum" in e && e["enum"].JArr? { RefFreeIsFixed(contract, e["enum"], stack); }
    SameKindsSameLocals(e, out, v, path);
  }

  lemma ReadyKeyword(contract: Json, refs: set<string>, e: map<string, Json>, keyword: string)
    requires Ready(contract, refs, JObj(e))
    requires keyword in {"items", "additionalProperties"} && keyword in e
    ensures Ready(contract, refs, e[keyword])
  {
  }

  lemma ReadyProperties(contract: Json, refs: set<string>, e: map<string, Json>, out: map<string, Json>,
      stack: seq<string>)
    requires Ready(contract, refs, JObj(e)) && Keywise(contract, e, out, stack)
    requires "properties" in e && e["properties"].JObj?
    ensures var ps, qs := e["properties"].m, out["properties"].m;
            && qs.Keys == ps.Keys
            && forall k | k in ps :: Ready(contract, refs, ps[k]) && Resolve(contract, ps[k], stack) == Some(qs[k])
  {
    assert RefersIn(e["properties"], refs);
    Parts(contract, e["properties"], stack);
  }

  lemma ReadyBranches(contract: Json, refs: set<string>, e: map<string, Json>, out: map<string, Json>,
      stack: seq<string>)
    requires Ready(contract, refs, JObj(e)) && Keywise(contract, e, out, stack)
    requires "anyOf" in e && e["anyOf"].JArr?
    ensures out["anyOf"].JArr?
    ensures var bs, qs := e["anyOf"].items, out["anyOf"].items;
            && |qs| == |bs|
            && forall i | 0 <= i < |bs| ::
                 Ready(contract, refs, bs[i]) && Resolve(contract, bs[i], stack) == Some(qs[i])
  {
    assert RefersIn(e["anyOf"], refs);
    Parts(contract, e["anyOf"], stack);
  }

  /** The eager form refines the lazy one: same errors, at the same places, where validation does not stray. */
  lemma {:induction false} SameErrors(contract: Json, refs: set<string>, s: Json, stack: seq<string>, v: Json,
      path: Path, seen: set<string>)
    requires Ready(contract, refs, s) && seen <= OnStack(stack) && !Strays(contract, s, v, OnStack(stack))
    ensures Resolve(contract, s, stack).Some?
    ensures Errors(Resolve(contract, s, stack).value, v, path) == LazyErrors(contract, s, v, path, seen)
    decreases v, 1, Refs(contract) + Refs(s) - OnStack(stack), s, 3
  {
    ReadyResolves(contract, refs, s, stack);
    if s.JObj? {
      assert s == JObj(s.m);
      SameObjectErrors(contract, refs, s.m, stack, v, path, seen);
    } else {
      KindKept(contract, s, stack);
    }
  }

  lemma {:induction false} SameObjectErrors(contract: Json, refs: set<string>, m: map<string, Json>,
      stack: seq<string>, v: Json, path: Path, seen: set<string>)
    requires Ready(contract, refs, JObj(m)) && seen <= OnStack(stack) && !Strays(contract, JObj(m), v, OnStack(stack))
    ensures Resolve(contract, JObj(m), stack).Some?
    ensures Errors(Resolve(contract, JObj(m), stack).value, v, path) == LazyErrors(contract, JObj(m), v, path, seen)
    decreases v, 1, Refs(contract) + Refs(JObj(m)) - OnStack(stack), JObj(m), 2
  {
    var inner := UnfoldResolves(contract, refs, m, stack);
    UnfoldFewer(contract, m, seen, OnStack(stack));
    var u := Unfold(contract, m, seen);
    var out := SameKeywords(contract, refs, u.m, inner, v, path, u.seen);
    Assemble(contract, m, seen, out, v, path);
  }

  /** Each keyword gives the same errors resolved as on demand. */
  predicate SameByKeyword(contract: Json, e: map<string, Json>, out: map<string, Json>, v: Json, path: Path,
      seen: set<string>) {
    && LocalErrors(out, v, path) == LocalErrors(e, v, path)
    && PropertyErrors(JObj(out), v, path) == LazyPropertyErrors(contract, e, v, path)
    && ExtraErrors(JObj(out), v, path) == LazyExtraErrors(contract, e, v, path)
    && ItemErrors(JObj(out), v, path) == LazyItemErrors(contract, e, v, path)
    && AnyOfErrors(JObj(out), v, path) == LazyAnyOfErrors(contract, e, v, path, seen)
  }

  /** Keyword by keyword, a schema without "$ref" has the same errors resolved as unresolved. */
  lemma {:induction false} SameKeywords(contract: Json, refs: set<string>, e: map<string, Json>, stack: seq<string>,
      v: Json, path: Path, seen: set<string>)
    returns (out: map<string, Json>)
    requires Ready(contract, refs, JObj(e)) && "$ref" !in e && seen <= OnStack(stack)
    requires StaysInside(contract, e, v, OnStack(stack))
    ensures Resolve(contract, JObj(e), stack) == Some(JObj(out)) && "$ref" !in out
    ensures SameByKeyword(contract, e, out, v, path, seen)
    decreases v, 1, Refs(contract) + Refs(JObj(e)) - OnStack(stack), JObj(e), 1
  {
    ReadyParts(contract, refs, e, stack);
    out := Resolve(contract, JObj(e), stack).value.m;
    LocalKept(contract, e, out, stack, v, path);
    SameProperties(contract, refs, e, out, stack, v, path);
    SameExtraNames(contract, refs, e, out, stack, v);
    SameExtras(contract, refs, e, out, stack, v, path);
    SameItems(contract, refs, e, out, stack, v, path);
    SameAnyOfKeyword(contract, refs, e, out, stack, v, path, seen);
  }

  lemma {:induction false} SameAnyOfKeyword(contract: Json, refs: set<string>, e: map<string, Json>,
      out: map<string, Json>, stack: seq<string>, v: Json, path: Path, seen: set<string>)
    requires Ready(contract, refs, JObj(e)) && Keywise(contract, e, out, stack) && seen <= OnStack(stack)
    requires "anyOf" in e && e["anyOf"].JArr? ==> !StraysInBranches(contract, e["anyOf"], v, OnStack(stack))
    ensures AnyOfErrors(JObj(out), v, path) == LazyAnyOfErrors(contract, e, v, path, seen)
    decreases v, 1, Refs(contract) + Refs(JObj(e)) - OnStack(stack), JObj(e), 0
  {
    if "anyOf" in e && e["anyOf"].JArr? {
      ReadyBranches(contract, refs, e, out, stack);
      assert Refs(e["anyOf"]) <= Refs(JObj(e));
      SameBranches(contract, refs, e["anyOf"], out["anyOf"], stack, v, path, seen);
    }
    SameAnyOf(contract, e, seen, out, v, path);
  }

  /** Nothing under the keywords of e makes validation stray. */
  predicate StaysInside(contract: Json, e: map<string, Json>, v: Json, seen: set<string>) {
    && ("enum" in e && e["enum"].JArr? ==> RefFree(e["enum"]))
    && !StraysInMembers(contract, e, v, seen) && !StraysInItems(contract, e, v, seen)
    && ("anyOf" in e && e["anyOf"].JArr? ==> !StraysInBranches(contract, e["anyOf"], v, seen))
  }

  /** `properties` names the same members before and after. */
  lemma SameExtraNames(contract: Json, refs: set<string>, e: map<string, Json>, out: map<string, Json>,
      stack: seq<string>, v: Json)
    requires Ready(contract, refs, JObj(e)) && Keywise(contract, e, out, stack)
    ensures Extras(out, v) == Extras(e, v)
  {
    if "properties" in e {
      assert SameKind(e["properties"], out["properties"]);
      if e["properties"].JObj? { ReadyProperties(contract, refs, e, out, stack); }
    }
    ExtraNames(e, out, v);
  }

  lemma ExtraNames(e: map<string, Json>, out: map<string, Json>, v: Json)
    requires "properties" in e <==> "properties" in out
    requires "properties" in e ==> e["properties"].Members().Keys == out["properties"].Members().Keys
    ensures Extras(out, v) == Extras(e, v)
  {
  }

  lemma {:induction false} SameProperties(contract: Json, refs: set<string>, e: map<string, Json>,
      out: map<string, Json>, stack: seq<string>, v: Json, path: Path)
    requires Ready(contract, refs, JObj(e)) && Keywise(contract, e, out, stack)
    requires !StraysInMembers(contract, e, v, OnStack(stack))
    ensures PropertyErrors(JObj(out), v, path) == LazyPropertyErrors(contract, e, v, path)
    decreases v, 0, 1
  {
    if "properties" in e {
      assert SameKind(e["properties"], out["properties"]);
      if e["properties"].JObj? && v.JObj? {
        ReadyProperties(contract, refs, e, out, stack);
        SameProperty(contract, refs, e["properties"].m, out["properties"].m, stack, v, path);
        SamePropertySets(contract, e, out, v, path);
      }
    }
  }

  lemma {:induction false} SameProperty(contract: Json, refs: set<string>, ps: map<string, Json>,
      qs: map<string, Json>, stack: seq<string>, v: Json, path: Path)
    requires v.JObj? && ps.Keys == qs.Keys
    requires forall k | k in ps :: Ready(contract, refs, ps[k]) && Resolve(contract, ps[k], stack) == Some(qs[k])
    requires forall k | k in ps && k in v.m :: !Strays(contract, ps[k], v.m[k], OnStack(stack))
    ensures forall k | k in ps && k in v.m ::
      Errors(qs[k], v.m[k], path + [Key(k)]) == LazyErrors(contract, ps[k], v.m[k], path + [Key(k)], {})
    decreases v, 0, 0
  {
    forall k | k in ps && k in v.m
      ensures Errors(qs[k], v.m[k], path + [Key(k)]) == LazyErrors(contract, ps[k], v.m[k], path + [Key(k)], {})
    {
      SameErrors(contract, refs, ps[k], stack, v.m[k], path + [Key(k)], {});
    }
  }

  lemma SamePropertySets(contract: Json, e: map<string, Json>, out: map<string, Json>, v: Json, path: Path)
    requires "properties" in e && e["properties"].JObj? && "properties" in out && out["properties"].JObj? && v.JObj?
    requires e["properties"].m.Keys == out["properties"].m.Keys
    requires forall k | k in e["properties"].m && k in v.m ::
      Errors(out["properties"].m[k], v.m[k], path + [Key(k)])
      == LazyErrors(contract, e["properties"].m[k], v.m[k], path + [Key(k)], {})
    ensures PropertyErrors(JObj(out), v, path) == LazyPropertyErrors(contract, e, v, path)
  {
  }

  lemma {:induction false} SameExtras(contract: Json, refs: set<string>, e: map<string, Json>,
      out: map<string, Json>, stack: seq<string>, v: Json, path: Path)
    requires Ready(contract, refs, JObj(e)) && Keywise(contract, e, out, stack) && Extras(out, v) == Extras(e, v)
    requires !StraysInMembers(contract, e, v, OnStack(stack))
    ensures ExtraErrors(JObj(out), v, path) == LazyExtraErrors(contract, e, v, path)
    decreases v, 0
  {
    if "additionalProperties" in e && e["additionalProperties"].JObj? && v.JObj? {
      var ap := e["additionalProperties"];
      ReadyKeyword(contract, refs, e, "additionalProperties");
      forall k | k in Extras(e, v) && k in v.m
        ensures Errors(out["additionalProperties"], v.m[k], path + [Key(k)])
                == LazyErrors(contract, ap, v.m[k], path + [Key(k)], {})
      {
        SameErrors(contract, refs, ap, stack, v.m[k], path + [Key(k)], {});
      }
    }
  }

  lemma {:induction false} SameItems(contract: Json, refs: set<string>, e: map<string, Json>,
      out: map<string, Json>, stack: seq<string>, v: Json, path: Path)
    requires Ready(contract, refs, JObj(e)) && Keywise(contract, e, out, stack)
    requires !StraysInItems(contract, e, v, OnStack(stack))
    ensures ItemErrors(JObj(out), v, path) == LazyItemErrors(contract, e, v, path)
    decreases v, 0
  {
    if "items" in e && v.JArr? {
      var item := e["items"];
      ReadyKeyword(contract, refs, e, "items");
      forall i | 0 <= i < |v.items|
        ensures Errors(out["items"], v.items[i], path + [Index(i)])
                == LazyErrors(contract, item, v.items[i], path + [Index(i)], {})
      {
        SameErrors(contract, refs, item, stack, v.items[i], path + [Index(i)], {});
      }
    }
  }

  lemma {:induction false} SameBranches(contract: Json, refs: set<string>, bs: Json, outs: Json, stack: seq<string>,
      v: Json, path: Path, seen: set<string>)
    requires bs.JArr? && outs.JArr? && |bs.items| == |outs.items| && seen <= OnStack(stack)
    requires forall i | 0 <= i < |bs.items| ::
      Ready(contract, refs, bs.items[i]) && Resolve(contract, bs.items[i], stack) == Some(outs.items[i])
    requires !StraysInBranches(contract, bs, v, OnStack(stack))
    ensures NoBranchAccepts(contract, bs, v, path, seen)
            <==> forall i | 0 <= i < |outs.items| :: Errors(outs.items[i], v, path) != {}
    decreases v, 1, Refs(contract) + Refs(bs) - OnStack(stack), bs, 0
  {
    forall i | 0 <= i < |bs.items|
      ensures Errors(outs.items[i], v, path) == LazyErrors(contract, bs.items[i], v, path, seen)
    {
      assert Refs(bs.items[i]) <= Refs(bs);
      SameErrors(contract, refs, bs.items[i], stack, v, path, seen);
    }
  }

  function LazyAnyOfErrors(contract: Json, e: map<string, Json>, v: Json, path: Path,
      seen: set<string>): set<SchemaError> {
    if "anyOf" in e && e["anyOf"].JArr?
    then When(NoBranchAccepts(contract, e["anyOf"], v, path, seen), path, "anyOf")
    else {}
  }

  lemma LazySum(contract: Json, m: map<string, Json>, seen: set<string>, v: Json, path: Path)
    requires Unfold(contract, m, seen).Unfolded?
    ensures var u := Unfold(contract, m, seen);
      LazyErrors(contract, JObj(m), v, path, seen)
      == LocalErrors(u.m, v, path) + LazyPropertyErrors(contract, u.m, v, path)
         + LazyExtraErrors(contract, u.m, v, path) + LazyItemErrors(contract, u.m, v, path)
         + LazyAnyOfErrors(contract, u.m, v, path, u.seen)
  {
  }

  lemma EagerSum(m: map<string, Json>, v: Json, path: Path)
    requires "$ref" !in m
    ensures Errors(JObj(m), v, path)
            == LocalErrors(m, v, path) + PropertyErrors(JObj(m), v, path) + ExtraErrors(JObj(m), v, path)
               + ItemErrors(JObj(m), v, path) + AnyOfErrors(JObj(m), v, path)
  {
  }

  lemma SameAnyOf(contract: Json, e: map<string, Json>, seen: set<string>, out: map<string, Json>, v: Json, path: Path)
    requires e.Keys == out.Keys && forall k | k in e :: SameKind(e[k], out[k])
    requires "anyOf" in e && e["anyOf"].JArr? ==>
      out["anyOf"].JArr?
      && (NoBranchAccepts(contract, e["anyOf"], v, path, seen)
          <==> forall i | 0 <= i < |out["anyOf"].items| :: Errors(out["anyOf"].items[i], v, path) != {})
    ensures AnyOfErrors(JObj(out), v, path) == LazyAnyOfErrors(contract, e, v, path, seen)
  {
    if "anyOf" in e { assert SameKind(e["anyOf"], out["anyOf"]); }
  }

  /** Keyword by keyword the same errors, so the same errors. */
  lemma Assemble(contract: Json, m: map<string, Json>, seen: set<string>, out: map<string, Json>, v: Json, path: Path)
    requires Unfold(contract, m, seen).Unfolded? && "$ref" !in out
    requires SameByKeyword(contract, Unfold(contract, m, seen).m, out, v, path, Unfold(contract, m, seen).seen)
    ensures Errors(JObj(out), v, path) == LazyErrors(contract, JObj(m), v, path, seen)
  {
    LazySum(contract, m, seen, v, path);
    EagerSum(out, v, path);
  }

  /**
    Whatever schema and contract, cyclic or not, whose references resolve: a body meets the same
    errors at the same places under the resolved schema as when references are followed on demand,
    unless validating it strays.
   */
  lemma ResolutionIsFaithful(contract: Json, refs: set<string>, s: Json, v: Json)
    requires Ready(contract, refs, s) && !Strays(contract, s, v, {})
    ensures Resolve(contract, s, []).Some?
    ensures var out := Resolve(contract, s, []).value;
      && Errors(out, v, []) == LazyErrors(contract, s, v, [], {})
      && (Accepts(out, v) <==> LazyErrors(contract, s, v, [], {}) == {})
  {
    assert OnStack([]) == {};
    SameErrors(contract, refs, s, [], v, [], {});
    NoErrorsMeansAccepts(Resolve(contract, s, []).value, v, []);
  }

  // ----- acyclic contracts -----

  /** No property is called "$ref", and `enum` lists, which are data, hold no reference. */
  predicate SchemaShaped(s: Json) {
    s.JObj? ==>
      && ("enum" in s.m && s.m["enum"].JArr? ==> RefFree(s.m["enum"]))
      && ("properties" in s.m && s.m["properties"].JObj? ==>
            && "$ref" !in s.m["properties"].m
            && forall k | k in s.m["properties"].m :: SchemaShaped(s.m["properties"].m[k]))
      && ("items" in s.m ==> SchemaShaped(s.m["items"]))
      && ("additionalProperties" in s.m ==> SchemaShaped(s.m["additionalProperties"]))
      && ("anyOf" in s.m && s.m["anyOf"].JArr? ==>
            forall i | 0 <= i < |s.m["anyOf"].items| :: SchemaShaped(s.m["anyOf"].items[i]))
  }

  /** An acyclic contract whose references lead to schemas. */
  ghost predicate Sound(contract: Json, rank: map<string, nat>) {
    && Acyclic(contract, rank)
    && forall r | r in rank :: SchemaShaped(ResolveRef(contract, r).value)
  }

  lemma {:induction false} RefFreeIsShaped(j: Json)
    requires RefFree(j)
    ensures SchemaShaped(j)
  {
    if j.JObj? {
      if "properties" in j.m && j.m["properties"].JObj? {
        var ps := j.m["properties"].m;
        assert RefFree(j.m["properties"]);
        forall k | k in ps ensures SchemaShaped(ps[k]) { RefFreeIsShaped(ps[k]); }
      }
      if "items" in j.m { RefFreeIsShaped(j.m["items"]); }
      if "additionalProperties" in j.m { RefFreeIsShaped(j.m["additionalProperties"]); }
      if "anyOf" in j.m && j.m["anyOf"].JArr? {
        var bs := j.m["anyOf"].items;
        assert RefFree(j.m["anyOf"]);
        forall i | 0 <= i < |bs| ensures SchemaShaped(bs[i]) { RefFreeIsShaped(bs[i]); }
      }
    }
  }

  lemma MergedShaped(t: map<string, Json>, m: map<string, Json>)
    requires SchemaShaped(JObj(t)) && forall k | k in m && k != "$ref" :: RefFree(m[k])
    ensures SchemaShaped(JObj(t + Siblings(m)))
  {
    assert RefFree(JObj(Siblings(m)));
    RefFreeIsShaped(JObj(Siblings(m)));
    var a, b, c := JObj(t), JObj(Siblings(m)), JObj(t + Siblings(m));
    forall k | k in c.m ensures c.m[k] == if k in b.m then b.m[k] else a.m[k] {
    }
  }

  lemma MergedGrounded(t: map<string, Json>, m: map<string, Json>, rank: map<string, nat>, low: nat)
    requires "$ref" !in t && Grounded(JObj(t), rank, low)
    requires "$ref" in m && forall k | k in m && k != "$ref" :: RefFree(m[k])
    ensures Grounded(JObj(t + Siblings(m)), rank, low)
  {
    forall k | k in Siblings(m) ensures Grounded(m[k], rank, low) { RefFreeIsGrounded(m[k], rank, low); }
  }

  /** No reference already seen can be met again below `bound`. */
  ghost predicate SeenAbove(seen: set<string>, rank: map<string, nat>, bound: nat) {
    forall r | r in seen && r in rank :: rank[r] >= bound
  }

  /** A schema with sound references, ranked below `bound`. */
  ghost predicate ReadyBelow(contract: Json, rank: map<string, nat>, s: Json, bound: nat) {
    Sound(contract, rank) && Grounded(s, rank, bound) && SchemaShaped(s)
  }

  lemma TargetReady(contract: Json, rank: map<string, nat>, m: map<string, Json>, bound: nat)
    requires ReadyBelow(contract, rank, JObj(m), bound) && "$ref" in m
    ensures m["$ref"].JStr? && m["$ref"].s in rank && rank[m["$ref"].s] < bound
    ensures ResolveRef(contract, m["$ref"].s).Ok?
    ensures var target := ResolveRef(contract, m["$ref"].s).value;
            target == JObj(target.m) && ReadyBelow(contract, rank, target, rank[m["$ref"].s])
    ensures forall k | k in m && k != "$ref" :: RefFree(m[k])
  {
  }

  /** On an acyclic contract unfolding is never stuck, and comes to lower ranks. */
  lemma {:induction false} UnfoldAcyclic(contract: Json, rank: map<string, nat>, m: map<string, Json>, bound: nat,
      seen: set<string>)
    returns (low: nat)
    requires ReadyBelow(contract, rank, JObj(m), bound) && SeenAbove(seen, rank, bound)
    ensures Unfold(contract, m, seen).Unfolded? && PlainChain(contract, m, seen)
    ensures var u := Unfold(contract, m, seen);
            ReadyBelow(contract, rank, JObj(u.m), low) && SeenAbove(u.seen, rank, low)
    ensures if "$ref" in m then low < bound else low == bound
    decreases bound
  {
    if "$ref" !in m {
      low := bound;
    } else {
      TargetReady(contract, rank, m, bound);
      var ref := m["$ref"].s;
      var target := ResolveRef(contract, ref).value;
      low := UnfoldAcyclic(contract, rank, target.m, rank[ref], seen + {ref});
      UnfoldReference(contract, m, seen, target);
      var t := Unfold(contract, target.m, seen + {ref}).m;
      MergedGrounded(t, m, rank, low);
      MergedShaped(t, m);
    }
  }

  lemma StaysFromInside(contract: Json, m: map<string, Json>, v: Json, seen: set<string>)
    requires Unfold(contract, m, seen).Unfolded? && PlainChain(contract, m, seen)
    requires StaysInside(contract, Unfold(contract, m, seen).m, v, Unfold(contract, m, seen).seen)
    ensures !Strays(contract, JObj(m), v, seen)
  {
  }

  /** On an acyclic contract validation never strays. */
  lemma {:induction false} AcyclicNeverStrays(contract: Json, rank: map<string, nat>, s: Json, bound: nat, v: Json,
      seen: set<string>)
    requires ReadyBelow(contract, rank, s, bound) && SeenAbove(seen, rank, bound)
    ensures !Strays(contract, s, v, seen)
    decreases v, 1, bound, s, 1
  {
    if s.JObj? {
      assert s == JObj(s.m);
      var low := UnfoldAcyclic(contract, rank, s.m, bound, seen);
      AcyclicInside(contract, rank, Unfold(contract, s.m, seen).m, low, v, Unfold(contract, s.m, seen).seen);
      StaysFromInside(contract, s.m, v, seen);
    }
  }

  lemma {:induction false} AcyclicInside(contract: Json, rank: map<string, nat>, e: map<string, Json>, low: nat,
      v: Json, seen: set<string>)
    requires ReadyBelow(contract, rank, JObj(e), low) && SeenAbove(seen, rank, low) && "$ref" !in e
    ensures StaysInside(contract, e, v, seen)
    decreases v, 1, low, JObj(e), 0
  {
    AcyclicMembers(contract, rank, e, low, v, seen);
    AcyclicItems(contract, rank, e, low, v, seen);
    if "anyOf" in e && e["anyOf"].JArr? {
      var bs := e["anyOf"].items;
      assert Grounded(e["anyOf"], rank, low);
      forall i | 0 <= i < |bs| ensures !Strays(contract, bs[i], v, seen) {
        AcyclicNeverStrays(contract, rank, bs[i], low, v, seen);
      }
    }
  }

  lemma {:induction false} AcyclicMembers(contract: Json, rank: map<string, nat>, e: map<string, Json>, low: nat,
      v: Json, seen: set<string>)
    requires ReadyBelow(contract, rank, JObj(e), low) && SeenAbove(seen, rank, low) && "$ref" !in e
    ensures !StraysInMembers(contract, e, v, seen)
    decreases v, 0
  {
    if v.JObj? {
      forall k | k in v.m && "properties" in e && e["properties"].JObj? && k in e["properties"].m
        ensures !Strays(contract, e["properties"].m[k], v.m[k], seen)
      {
        assert Grounded(e["properties"], rank, low);
        AcyclicNeverStrays(contract, rank, e["properties"].m[k], low, v.m[k], seen);
      }
      forall k | k in v.m && "additionalProperties" in e
        ensures !Strays(contract, e["additionalProperties"], v.m[k], seen)
      {
        AcyclicNeverStrays(contract, rank, e["additionalProperties"], low, v.m[k], seen);
      }
    }
  }

  lemma {:induction false} AcyclicItems(contract: Json, rank: map<string, nat>, e: map<string, Json>, low: nat,
      v: Json, seen: set<string>)
    requires ReadyBelow(contract, rank, JObj(e), low) && SeenAbove(seen, rank, low) && "$ref" !in e
    ensures !StraysInItems(contract, e, v, seen)
    decreases v, 0
  {
    if "items" in e && v.JArr? {
      forall i | 0 <= i < |v.items| ensures !Strays(contract, e["items"], v.items[i], seen) {
        AcyclicNeverStrays(contract, rank, e["items"], low, v.items[i], seen);
      }
    }
  }

  lemma {:induction false} GroundedRefers(j: Json, rank: map<string, nat>, bound: nat)
    requires Grounded(j, rank, bound)
    ensures RefersIn(j, rank.Keys)
  {
    match j
    case JArr(xs) => forall i | 0 <= i < |xs| ensures RefersIn(xs[i], rank.Keys) { GroundedRefers(xs[i], rank, bound); }
    case JObj(m) => forall k | k in m ensures RefersIn(m[k], rank.Keys) { GroundedRefers(m[k], rank, bound); }
    case _ =>
  }

  lemma {:induction false} SchemaShapedIsShaped(s: Json)
    requires SchemaShaped(s)
    ensures Shaped(s)
  {
    if s.JObj? {
      if "properties" in s.m && s.m["properties"].JObj? {
        var ps := s.m["properties"].m;
        forall k | k in ps ensures Shaped(ps[k]) { SchemaShapedIsShaped(ps[k]); }
      }
      if "items" in s.m { SchemaShapedIsShaped(s.m["items"]); }
      if "additionalProperties" in s.m { SchemaShapedIsShaped(s.m["additionalProperties"]); }
      if "anyOf" in s.m && s.m["anyOf"].JArr? {
        var bs := s.m["anyOf"].items;
        forall i | 0 <= i < |bs| ensures Shaped(bs[i]) { SchemaShapedIsShaped(bs[i]); }
      }
    }
  }

  lemma SoundIsReady(contract: Json, rank: map<string, nat>, s: Json, bound: nat)
    requires ReadyBelow(contract, rank, s, bound)
    ensures Ready(contract, rank.Keys, s)
  {
    forall r | r in rank
      ensures RefersIn(ResolveRef(contract, r).value, rank.Keys) && Shaped(ResolveRef(contract, r).value)
    {
      GroundedRefers(ResolveRef(contract, r).value, rank, rank[r]);
      SchemaShapedIsShaped(ResolveRef(contract, r).value);
    }
    GroundedRefers(s, rank, bound);
    SchemaShapedIsShaped(s);
  }

  /**
    On a sound contract resolution succeeds, the result is closed, resolving it again changes
    nothing, and every body meets the same errors at the same places as when references are
    followed on demand.
   */
  lemma ResolutionPreservesMeaning(contract: Json, rank: map<string, nat>, s: Json, bound: nat, v: Json)
    requires Sound(contract, rank) && Grounded(s, rank, bound) && SchemaShaped(s)
    ensures Resolve(contract, s, []).Some?
    ensures var out := Resolve(contract, s, []).value;
      && RefFree(out)
      && Resolve(contract, out, []) == Some(out)
      && Errors(out, v, []) == LazyErrors(contract, s, v, [], {})
      && (Accepts(out, v) <==> LazyErrors(contract, s, v, [], {}) == {})
  {
    AcyclicResolves(contract, rank, s, bound, []);
    ResolveTwice(contract, rank, s, bound, []);
    SoundIsReady(contract, rank, s, bound);
    AcyclicNeverStrays(contract, rank, s, bound, v, {});
    ResolutionIsFaithful(contract, rank.Keys, s, v);
  }

  // ----- `enum` lists -----

  lemma {:induction false} SchemaEqualToItself(j: Json)
    ensures SchemaEqual(j, j)
  {
    match j
    case JArr(xs) => forall i | 0 <= i < |xs| ensures SchemaEqual(xs[i], xs[i]) { SchemaEqualToItself(xs[i]); }
    case JObj(m) => forall k | k in m ensures SchemaEqual(m[k], m[k]) { SchemaEqualToItself(m[k]); }
    case _ =>
  }

  /** Equal documents hold references together. */
  lemma {:induction false} EqualsAreRefFree(a: Json, b: Json)
    requires SchemaEqual(a, b) && RefFree(a)
    ensures RefFree(b)
  {
    match a
    case JArr(xs) => forall i | 0 <= i < |xs| ensures RefFree(b.items[i]) { EqualsAreRefFree(xs[i], b.items[i]); }
    case JObj(m) => forall k | k in m ensures RefFree(b.m[k]) { EqualsAreRefFree(m[k], b.m[k]); }
    case _ =>
  }

  lemma ItemIsAllowed(e: Json, i: nat)
    requires e.JArr? && i < |e.items|
    ensures EnumAllows(e, e.items[i])
  {
    SchemaEqualToItself(e.items[i]);
  }

  lemma ResolvedForbids(e: Json, v: Json)
    requires e.JArr? && RefFree(e) && !RefFree(v)
    ensures !EnumAllows(e, v)
  {
    forall i | 0 <= i < |e.items| ensures !SchemaEqual(e.items[i], v) {
      if SchemaEqual(e.items[i], v) { EqualsAreRefFree(e.items[i], v); }
    }
  }

  /** The resolver treats data like schemas: an `enum` list keeps its meaning exactly when it holds no reference. */
  lemma EnumKeptIff(contract: Json, rank: map<string, nat>, e: Json, bound: nat)
    requires Acyclic(contract, rank) && Grounded(e, rank, bound) && e.JArr?
    ensures Resolve(contract, e, []).Some?
    ensures (forall v :: EnumAllows(Resolve(contract, e, []).value, v) <==> EnumAllows(e, v)) <==> RefFree(e)
  {
    AcyclicResolves(contract, rank, e, bound, []);
    var out := Resolve(contract, e, []).value;
    KindKept(contract, e, []);
    if RefFree(e) {
      RefFreeIsFixed(contract, e, []);
    } else {
      var i :| 0 <= i < |e.items| && !RefFree(e.items[i]);
      ItemIsAllowed(e, i);
      ResolvedForbids(out, e.items[i]);
    }
  }

  // ----- each way of straying matters -----

  /** With no keyword but `items`, only elements can be wrong. */
  lemma OnlyItems(contract: Json, m: map<string, Json>, v: Json, path: Path)
    requires Unfold(contract, m, {}).Unfolded? && Unfold(contract, m, {}).m.Keys <= {"items"}
    ensures LazyErrors(contract, JObj(m), v, path, {}) == LazyItemErrors(contract, Unfold(contract, m, {}).m, v, path)
  {
    LazySum(contract, m, {}, v, path);
    var e := Unfold(contract, m, {}).m;
    assert "anyOf" !in e && "properties" !in e && "additionalProperties" !in e;
    NoLocalErrors(e, v, path);
  }

  lemma NoLocalErrors(e: map<string, Json>, v: Json, path: Path)
    requires e.Keys <= {"items"}
    ensures LocalErrors(e, v, path) == {}
  {
    assert "type" !in e && "enum" !in e && "required" !in e && "minLength" !in e && "maxLength" !in e;
    assert "minimum" !in e && "maximum" !in e;
  }

  lemma QuietOnNull(contract: Json, m: map<string, Json>, path: Path)
    requires Unfold(contract, m, {}).Unfolded? && Unfold(contract, m, {}).m.Keys <= {"items"}
    ensures LazyErrors(contract, JObj(m), JNull, path, {}) == {}
  {
    OnlyItems(contract, m, JNull, path);
  }

  lemma QuietOnList(contract: Json, m: map<string, Json>)
    requires Unfold(contract, m, {}).Unfolded? && Unfold(contract, m, {}).m.Keys == {"items"}
    requires Unfold(contract, m, {}).m["items"] == JObj(RefToD())
    requires LazyErrors(contract, JObj(RefToD()), JNull, [] + [Index(0)], {}) == {}
    ensures LazyErrors(contract, JObj(m), JArr([JNull]), [], {}) == {}
  {
    OnlyItems(contract, m, JArr([JNull]), []);
    OneItem(contract, Unfold(contract, m, {}).m, JNull);
  }

  lemma OneItem(contract: Json, e: map<string, Json>, x: Json)
    requires "items" in e && e["items"].JObj? && LazyErrors(contract, e["items"], x, [] + [Index(0)], {}) == {}
    ensures LazyItemErrors(contract, e, JArr([x]), []) == {}
  {
    assert [x][0] == x;
  }

  lemma ReferenceLeft(out: map<string, Json>, v: Json)
    requires "$ref" !in out && "items" in out && out["items"].JObj? && "$ref" in out["items"].m
    requires v.JArr? && v.items != []
    ensures !Accepts(JObj(out), v)
  {
    assert !Accepts(out["items"], v.items[0]);
  }

  lemma FollowsD(d: Json, over: map<string, Json>)
    requires d.JObj? && "$ref" !in d.m && "$ref" !in over
    ensures Unfold(OneDefinition(d), RefToD() + over, {}) == Unfolded(d.m + over, {"#/d"})
  {
    OneDefinitionRef(d);
    assert Unfold(OneDefinition(d), d.m, {"#/d"}) == Unfolded(d.m, {"#/d"});
    assert {} + {"#/d"} == {"#/d"};
    assert Siblings(RefToD() + over) == over;
    UnfoldReference(OneDefinition(d), RefToD() + over, {}, d);
  }

  lemma FollowsBare(d: Json)
    requires d.JObj? && "$ref" !in d.m
    ensures Unfold(OneDefinition(d), RefToD(), {}) == Unfolded(d.m, {"#/d"})
  {
    FollowsD(d, map[]);
    assert RefToD() + map[] == RefToD() && d.m + map[] == d.m;
  }

  lemma QuietD(d: Json, path: Path)
    requires d.JObj? && d.m.Keys <= {"items"}
    ensures LazyErrors(OneDefinition(d), JObj(RefToD()), JNull, path, {}) == {}
  {
    FollowsBare(d);
    QuietOnNull(OneDefinition(d), RefToD(), path);
  }

  /** A list of which d describes the elements, and d itself has nothing to say about null. */
  lemma ListOnDemand(d: Json, over: map<string, Json>, m: map<string, Json>)
    requires d.JObj? && d.m.Keys <= {"items"} && over.Keys <= {"items"} && m == RefToD() + over
    requires "items" in d.m + over && (d.m + over)["items"] == JObj(RefToD())
    ensures LazyErrors(OneDefinition(d), JObj(m), JArr([JNull]), [], {}) == {}
  {
    QuietD(d, [] + [Index(0)]);
    FollowsD(d, over);
    QuietOnList(OneDefinition(d), m);
  }

  /**
    A cycle: under a list of itself, a list with one element is fine on demand, and meets the
    circular marker once resolved.
   */
  lemma CyclesDiffer()
    ensures var d := JObj(map["items" := JObj(RefToD())]);
      && LazyErrors(OneDefinition(d), JObj(RefToD()), JArr([JNull]), [], {}) == {}
      && Resolve(OneDefinition(d), JObj(RefToD()), []).Some?
      && !Accepts(Resolve(OneDefinition(d), JObj(RefToD()), []).value, JArr([JNull]))
  {
    var d := JObj(map["items" := JObj(RefToD())]);
    assert RefToD() + map[] == RefToD();
    ListOnDemand(d, map[], RefToD());
    OneDefinitionRef(d);
    ListOfItself(OneDefinition(d), d);
  }

  lemma ListOfItself(contract: Json, d: Json)
    requires d == JObj(map["items" := JObj(RefToD())]) && ResolveRef(contract, "#/d") == Ok(d)
    ensures Resolve(contract, JObj(RefToD()), []).Some?
    ensures !Accepts(Resolve(contract, JObj(RefToD()), []).value, JArr([JNull]))
  {
    var out := map["items" := CircularMarker("#/d")];
    MarkerOnStack(contract, d.m, out, [] + ["#/d"]);
    BareReference(contract, d, out);
    ReferenceLeft(out, JArr([JNull]));
  }

  lemma MarkerOnStack(contract: Json, m: map<string, Json>, out: map<string, Json>, stack: seq<string>)
    requires m.Keys == {"items"} && m["items"] == JObj(RefToD()) && "#/d" in stack
    requires out.Keys == {"items"} && out["items"] == CircularMarker("#/d")
    ensures Resolve(contract, JObj(m), stack) == Some(JObj(out))
  {
    assert Resolve(contract, JObj(RefToD()), stack) == Some(CircularMarker("#/d"));
    ObjectResolves(contract, m, out, stack);
  }

  lemma BareReference(contract: Json, d: Json, out: map<string, Json>)
    requires ResolveRef(contract, "#/d") == Ok(d) && Resolve(contract, d, [] + ["#/d"]) == Some(JObj(out))
    ensures Resolve(contract, JObj(RefToD()), []) == Some(JObj(out))
  {
    assert Siblings(RefToD()) == map[];
    assert out + map[] == out;
  }

  /** A reference beside a reference is followed on demand, and is left as it is by the resolver. */
  lemma NestedSiblingsDiffer()
    ensures var d, m := JObj(map[]), RefToD() + map["items" := JObj(RefToD())];
      && LazyErrors(OneDefinition(d), JObj(m), JArr([JNull]), [], {}) == {}
      && Resolve(OneDefinition(d), JObj(m), []).Some?
      && !Accepts(Resolve(OneDefinition(d), JObj(m), []).value, JArr([JNull]))
  {
    var d, over := JObj(map[]), map["items" := JObj(RefToD())];
    ListOnDemand(d, over, RefToD() + over);
    NestedLeft(d, over, RefToD() + over);
  }

  lemma NestedLeft(d: Json, over: map<string, Json>, m: map<string, Json>)
    requires d == JObj(map[]) && over.Keys == {"items"} && over["items"] == JObj(RefToD()) && m == RefToD() + over
    ensures Resolve(OneDefinition(d), JObj(m), []).Some?
    ensures !Accepts(Resolve(OneDefinition(d), JObj(m), []).value, JArr([JNull]))
  {
    OneDefinitionResolves(d, over);
    ReferenceLeft(d.m + over, JArr([JNull]));
  }

  /** A reference in an `enum` list is data on demand, and is replaced by the resolver. */
  lemma EnumOfReferenceDiffers(contract: Json, x: Json, y: Json)
    requires Resolve(contract, x, []) == Some(y) && RefFree(y) && !RefFree(x)
    ensures var s := JObj(map["enum" := JArr([x])]);
      && LazyErrors(contract, s, x, [], {}) == {}
      && Resolve(contract, s, []).Some? && !Accepts(Resolve(contract, s, []).value, x)
  {
    EnumAlone(contract, JArr([x]), x);
    ItemIsAllowed(JArr([x]), 0);
    ListOfOne(contract, x, y);
    ResolvedForbids(JArr([y]), x);
    EnumRejects(JArr([y]), x);
  }

  lemma EnumRejects(e: Json, v: Json)
    requires !EnumAllows(e, v)
    ensures !Accepts(JObj(map["enum" := e]), v)
  {
    assert !LocalAccepts(map["enum" := e], v);
  }

  /** For one, a reference to a definition, listed as the only value, is the body. */
  lemma EnumReferencesDiffer(d: Json)
    requires d.JObj? && RefFree(d)
    ensures var s, v := JObj(map["enum" := JArr([JObj(RefToD())])]), JObj(RefToD());
      && LazyErrors(OneDefinition(d), s, v, [], {}) == {}
      && Resolve(OneDefinition(d), s, []).Some? && !Accepts(Resolve(OneDefinition(d), s, []).value, v)
  {
    OneDefinitionResolves(d, map[]);
    assert RefToD() + map[] == RefToD() && d.m + map[] == d.m;
    EnumOfReferenceDiffers(OneDefinition(d), JObj(RefToD()), d);
  }

  lemma ListOfOne(contract: Json, x: Json, y: Json)
    requires Resolve(contract, x, []) == Some(y)
    ensures Resolve(contract, JArr([x]), []) == Some(JArr([y]))
    ensures Resolve(contract, JObj(map["enum" := JArr([x])]), []) == Some(JObj(map["enum" := JArr([y])]))
  {
    assert [x][0] == x;
    assert Resolve(contract, JArr([x]), []).value.items == [y];
    ObjectResolves(contract, map["enum" := JArr([x])], map["enum" := JArr([y])], []);
  }

  lemma EnumAlone(contract: Json, e: Json, v: Json)
    ensures LazyErrors(contract, JObj(map["enum" := e]), v, [], {}) == When(!EnumAllows(e, v), [], "enum")
  {
    var m := map["enum" := e];
    LazySum(contract, m, {}, v, []);
    OnlyEnum(m, v);
  }

  lemma OnlyEnum(m: map<string, Json>, v: Json)
    requires m.Keys == {"enum"}
    ensures LocalErrors(m, v, []) == When(!EnumAllows(m["enum"], v), [], "enum")
  {
  }

  // ----- where the code and a plain reading of the documents part -----

  /** A contract with the one definition "d". */
  function OneDefinition(d: Json): Json { JObj(map["d" := d]) }

  function RefToD(): map<string, Json> { map["$ref" := JStr("#/d")] }

  lemma OneDefinitionRef(d: Json)
    requires d.JObj?
    ensures ResolveRef(OneDefinition(d), "#/d") == Ok(d)
  {
    var contract := OneDefinition(d);
    PointerRoundTrip(contract, ["d"]);
    assert PrintPointer(["d"]) == "#/d" by {
      assert Escape("d") == "d" + Escape("");
      assert EscapeAll(["d"]) == ["d"];
    }
    assert Walk(contract, ["d"]) == Some(d) by {
      assert Walk(d, ["d"][1..]) == Some(d);
    }
  }

  lemma OneDefinitionResolves(d: Json, over: map<string, Json>)
    requires d.JObj? && RefFree(d) && "$ref" !in over
    ensures Resolve(OneDefinition(d), JObj(RefToD() + over), []) == Some(JObj(d.m + over))
  {
    OneDefinitionRef(d);
    RefFreeIsFixed(OneDefinition(d), d, ["#/d"]);
    assert [] + ["#/d"] == ["#/d"];
    assert Siblings(RefToD() + over) == over;
  }

  /**
    A key beside "$ref" replaces the target's key; it is not added to it, as section 8.2.3.1 of
    JSON Schema 2020-12 Core has it. Here the target allows two characters and the sibling five.
   */
  lemma SiblingsReplaceKeywords()
    ensures var d := JObj(map["maxLength" := JInt(2)]);
      var out := Resolve(OneDefinition(d), JObj(RefToD() + map["maxLength" := JInt(5)]), []);
      out.Some? && Accepts(out.value, JStr("abc")) && !Accepts(d, JStr("abc"))
  {
    var d := JObj(map["maxLength" := JInt(2)]);
    var over := map["maxLength" := JInt(5)];
    OneDefinitionResolves(d, over);
    assert d.m + over == map["maxLength" := JInt(5)];
    OnlyLength(2, "abc");
    OnlyLength(5, "abc");
  }

  lemma OnlyLength(n: nat, s: string)
    ensures Accepts(JObj(map["maxLength" := JInt(n)]), JStr(s)) <==> |s| <= n
  {
    var m := map["maxLength" := JInt(n)];
    assert LengthAllows(m, "maxLength", JStr(s)) <==> |s| <= n;
    assert LocalAccepts(m, JStr(s)) <==> |s| <= n;
  }

  /**
    What a reference with keys beside it comes to on an acyclic contract. The keys are laid over the
    resolved target, and the result means "the target and the keys", as the standard has it, exactly
    when nothing that matters for v was lost or added by that. Where the two do not meet, nothing is.
   */
  lemma SiblingsConjoinIff(contract: Json, rank: map<string, nat>, m: map<string, Json>, bound: nat, v: Json)
    requires Acyclic(contract, rank) && Grounded(JObj(m), rank, bound) && "$ref" in m
    ensures Resolve(contract, ResolveRef(contract, m["$ref"].s).value, []).Some?
    ensures var t, over := Resolve(contract, ResolveRef(contract, m["$ref"].s).value, []).value.m, Siblings(m);
      var out := JObj(t + over);
      && Resolve(contract, JObj(m), []) == Some(out)
      && ((Accepts(out, v) <==> Both(t, over, v))
          <==> (Accepts(out, v) ==> Lost(t, over, v)) && (Both(t, over, v) ==> Added(t, over, v)))
      && (Disjoint(t, over) ==> (Accepts(out, v) <==> Both(t, over, v)))
      && (Annotations(over) ==> Errors(out, v, []) == Errors(JObj(t), v, []))
  {
    AcyclicFollows(contract, rank, m, bound, []);
    var t, over := Resolve(contract, ResolveRef(contract, m["$ref"].s).value, []).value.m, Siblings(m);
    OverlayIsConjunctionIff(t, over, v);
    if Disjoint(t, over) { DisjointConjoin(t, over, v); }
    if Annotations(over) { AnnotationsAreHarmless(t, over, v, []); }
  }

  /** Objects with one property of any kind, and open or closed for others. */
  function OneProperty(name: string): map<string, Json> {
    map["properties" := JObj(map[name := JObj(map[])])]
  }

  function Closed(m: map<string, Json>): map<string, Json> { m["additionalProperties" := JBool(false)] }

  /** Laying keys over a target can also forbid what both allow: extras are measured anew. */
  lemma SiblingsCanForbid(a: string, b: string, x: Json)
    requires a != b && a != "$ref"
    ensures var t, over, v := Closed(OneProperty(a)), OneProperty(b), JObj(map[a := x]);
      && Resolve(OneDefinition(JObj(t)), JObj(RefToD() + over), []) == Some(JObj(t + over))
      && Both(t, over, v) && !Accepts(JObj(t + over), v)
  {
    ClosedIsRefFree(a);
    OneDefinitionResolves(JObj(Closed(OneProperty(a))), OneProperty(b));
    BothAllow(a, b, JObj(map[a := x]));
    MergedForbids(Closed(OneProperty(a)), OneProperty(b), a, JObj(map[a := x]));
  }

  lemma ClosedIsRefFree(a: string)
    requires a != "$ref"
    ensures RefFree(JObj(Closed(OneProperty(a))))
  {
    assert RefFree(JObj(map[a := JObj(map[])]));
  }

  lemma BothAllow(a: string, b: string, v: Json)
    requires v.JObj? && v.m.Keys == {a}
    ensures Both(Closed(OneProperty(a)), OneProperty(b), v)
  {
    PropertyOfAnyKind(a, v);
    PropertyOfAnyKind(b, v);
    ByKeyword(OneProperty(b), v);
    ByKeyword(Closed(OneProperty(a)), v);
    ClosedMeets(OneProperty(a), v);
  }

  lemma MergedForbids(t: map<string, Json>, over: map<string, Json>, a: string, v: Json)
    requires "additionalProperties" in t && t["additionalProperties"] == JBool(false)
    requires "additionalProperties" !in over && "properties" in over && a !in over["properties"].Members()
    requires v.JObj? && a in v.m
    ensures !Accepts(JObj(t + over), v)
  {
    assert a in Extras(t + over, v);
  }

  lemma PropertyOfAnyKind(name: string, v: Json)
    requires v.JObj?
    ensures MeetsEach(OneProperty(name), v) && Extras(OneProperty(name), v) == v.m.Keys - {name}
    ensures Extras(Closed(OneProperty(name)), v) == v.m.Keys - {name}
  {
    forall x ensures Accepts(JObj(map[]), x) { AnythingGoes(x); }
  }

  lemma AnythingGoes(x: Json)
    ensures Accepts(JObj(map[]), x)
  {
    ByKeyword(map[], x);
  }

  lemma ClosedMeets(m: map<string, Json>, v: Json)
    requires MeetsEach(m, v)
    ensures MeetsEach(Closed(m), v)
  {
  }

  /** A schema with a property called "$ref" raises, and every schema from which it is reached. */
  lemma PropertyCalledRefRaises(contract: Json, m: map<string, Json>, stack: seq<string>, root: Call)
    requires "$ref" !in m && "properties" in m && m["properties"].JObj?
    requires "$ref" in m["properties"].m && !m["properties"].m["$ref"].JStr?
    requires Reached(contract, root, Call(JObj(m), stack))
    ensures Resolve(contract, JObj(m), stack).None? && Resolve(contract, root.schema, root.stack).None?
  {
    assert Resolve(contract, m["properties"], stack).None?;
    FailsFrom(contract, root, Call(JObj(m), stack));
  }
}
