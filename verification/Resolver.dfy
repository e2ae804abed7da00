/** Inlining references: harness/validator.py, `resolve_schema`. */
module Resolver {
  import opened Json
  import opened Pointer
  import opened Schema

  /** Every reference that occurs anywhere inside a document. */
  ghost function Refs(j: Json): set<string> {
    match j
    case JArr(xs) => set i, r | 0 <= i < |xs| && r in Refs(xs[i]) :: r
    case JObj(m) =>
      (set k, r | k in m && r in Refs(m[k]) :: r)
      + (if "$ref" in m && m["$ref"].JStr? then {m["$ref"].s} else {})
    case _ => {}
  }

  ghost function OnStack(stack: seq<string>): set<string> { set r | r in stack }

  lemma TargetRefs(contract: Json, ref: string)
    ensures ResolveRef(contract, ref).Ok? ==> Refs(ResolveRef(contract, ref).value) <= Refs(contract)
  {
    if "#/" <= ref {
      WalkKeeps(contract, UnescapeAll(Text.Split(ref[2..], '/')), j => Refs(j) <= Refs(contract));
    }
  }

  /** What stands in for a reference that is already being resolved. */
  function CircularMarker(ref: string): Json {
    JObj(map["$ref" := JStr(ref), "x-circular" := JBool(true)])
  }

  /** The keys beside "$ref". */
  function Siblings(m: map<string, Json>): map<string, Json> { m - {"$ref"} }

  /**
    `resolve_schema(contract, schema, stack)`; None stands for a raised error (a reference that
    does not resolve, or one that is no string). The `decreases` clause is the reason it stops on
    every contract, cyclic or not: each followed reference leaves fewer references off the stack.
   */
  function Resolve(contract: Json, schema: Json, stack: seq<string>): (out: Option<Json>)
    ensures schema.JObj? && out.Some? ==> out.value.JObj?
    decreases Refs(contract) + Refs(schema) - OnStack(stack), schema
  {
    match schema
    case JArr(xs) =>
      if forall i | 0 <= i < |xs| :: Resolve(contract, xs[i], stack).Some?
      then Some(JArr(seq(|xs|, i requires 0 <= i < |xs| => Resolve(contract, xs[i], stack).value)))
      else None
    case JObj(m) =>
      if "$ref" in m then
        if !m["$ref"].JStr? then None
        else
          var ref := m["$ref"].s;
          if ref in stack then Some(CircularMarker(ref))
          else
            match ResolveRef(contract, ref)
            case Err(_) => None
            case Ok(target) =>
              TargetRefs(contract, ref);
              assert ref in Refs(schema) - OnStack(stack);
              assert ref !in Refs(contract) + Refs(target) - OnStack(stack + [ref]);
              match Resolve(contract, target, stack + [ref])
              case None => None
              case Some(t) => Some(JObj(t.m + Siblings(m)))
      else if forall k | k in m :: Resolve(contract, m[k], stack).Some?
      then Some(JObj(map k | k in m :: Resolve(contract, m[k], stack).value))
      else None
    case _ => Some(schema)
  }

  /** The references still to be followed below a call: the first part of the measure. */
  ghost function Open(contract: Json, schema: Json, stack: seq<string>): set<string> {
    Refs(contract) + Refs(schema) - OnStack(stack)
  }

  /** Following a reference: where it leads, and what is left to follow afterwards. */
  lemma Follow(contract: Json, m: map<string, Json>, stack: seq<string>)
    requires "$ref" in m && m["$ref"].JStr? && m["$ref"].s !in stack
    requires Resolve(contract, JObj(m), stack).Some?
    ensures var ref := m["$ref"].s;
            && ResolveRef(contract, ref).Ok?
            && var target := ResolveRef(contract, ref).value;
               && Resolve(contract, target, stack + [ref]).Some?
               && Resolve(contract, JObj(m), stack).value
                  == JObj(Resolve(contract, target, stack + [ref]).value.m + Siblings(m))
               && ref in Open(contract, JObj(m), stack)
               && Open(contract, target, stack + [ref]) <= Open(contract, JObj(m), stack) - {ref}
  {
    TargetRefs(contract, m["$ref"].s);
  }

  // ----- the calls that a resolution makes -----

  /** One call of `resolve_schema`. */
  datatype Call = Call(schema: Json, stack: seq<string>)

  /** Call c makes call d: for one of its parts, or for the target of the reference it follows. */
  ghost predicate Makes(contract: Json, c: Call, d: Call) {
    match c.schema
    case JArr(xs) => d.stack == c.stack && d.schema in xs
    case JObj(m) =>
      if "$ref" in m then
        && m["$ref"].JStr? && m["$ref"].s !in c.stack
        && ResolveRef(contract, m["$ref"].s) == Ok(d.schema) && d.stack == c.stack + [m["$ref"].s]
      else d.stack == c.stack && exists k | k in m :: m[k] == d.schema
    case _ => false
  }

  /** Each call is made by the one before it. */
  ghost predicate Chain(contract: Json, calls: seq<Call>) {
    calls != [] && forall i | 0 <= i < |calls| - 1 :: Makes(contract, calls[i], calls[i + 1])
  }

  /** Call d is made, directly or not, when `root` is. */
  ghost predicate Reached(contract: Json, root: Call, d: Call) {
    exists calls: seq<Call> :: Chain(contract, calls) && calls[0] == root && calls[|calls| - 1] == d
  }

  /** The stack holds no reference twice, and only references of the contract or the root schema. */
  ghost predicate CleanStack(contract: Json, root: Json, stack: seq<string>) {
    && (forall i, j | 0 <= i < j < |stack| :: stack[i] != stack[j])
    && OnStack(stack) <= Refs(contract) + Refs(root)
  }

  ghost predicate CleanCall(contract: Json, root: Json, c: Call) {
    CleanStack(contract, root, c.stack) && Refs(c.schema) <= Refs(contract) + Refs(root)
  }

  lemma MakesCleanCalls(contract: Json, root: Json, c: Call, d: Call)
    requires CleanCall(contract, root, c) && Makes(contract, c, d)
    ensures CleanCall(contract, root, d)
  {
    if c.schema.JObj? && "$ref" in c.schema.m {
      var ref := c.schema.m["$ref"].s;
      TargetRefs(contract, ref);
      assert ref in Refs(c.schema);
    }
  }

  lemma {:induction false} ChainIsClean(contract: Json, root: Json, calls: seq<Call>)
    requires Chain(contract, calls) && calls[0] == Call(root, [])
    ensures CleanCall(contract, root, calls[|calls| - 1])
    decreases |calls|
  {
    if |calls| > 1 {
      var init := calls[..|calls| - 1];
      ChainIsClean(contract, root, init);
      MakesCleanCalls(contract, root, init[|init| - 1], calls[|calls| - 1]);
    }
  }

  /** In every call that resolving `root` reaches the stack is clean. */
  lemma StackStaysClean(contract: Json, root: Json, d: Call)
    requires Reached(contract, Call(root, []), d)
    ensures CleanStack(contract, root, d.stack)
  {
    var calls :| Chain(contract, calls) && calls[0] == Call(root, []) && calls[|calls| - 1] == d;
    ChainIsClean(contract, root, calls);
  }

  /** The call raises by itself: its reference is no string, or is to be followed and leads nowhere. */
  predicate Raises(contract: Json, c: Call) {
    && c.schema.JObj? && "$ref" in c.schema.m
    && var ref := c.schema.m["$ref"];
       !ref.JStr? || (ref.s !in c.stack && ResolveRef(contract, ref.s).Err?)
  }

  /** A call that fails raises, or makes a call that fails. */
  lemma FailsBelow(contract: Json, c: Call) returns (d: Call)
    requires Resolve(contract, c.schema, c.stack).None? && !Raises(contract, c)
    ensures Makes(contract, c, d) && Resolve(contract, d.schema, d.stack).None?
    ensures Open(contract, d.schema, d.stack) <= Open(contract, c.schema, c.stack)
    ensures d.schema < c.schema || Open(contract, d.schema, d.stack) < Open(contract, c.schema, c.stack)
  {
    match c.schema
    case JArr(xs) =>
      var i :| 0 <= i < |xs| && Resolve(contract, xs[i], c.stack).None?;
      d := Call(xs[i], c.stack);
    case JObj(m) =>
      if "$ref" in m {
        var ref := m["$ref"].s;
        TargetRefs(contract, ref);
        d := Call(ResolveRef(contract, ref).value, c.stack + [ref]);
        assert ref in Open(contract, c.schema, c.stack) && ref !in Open(contract, d.schema, d.stack);
      } else {
        var k :| k in m && Resolve(contract, m[k], c.stack).None?;
        d := Call(m[k], c.stack);
      }
  }

  lemma {:induction false} FailsSomewhere(contract: Json, c: Call) returns (calls: seq<Call>)
    requires Resolve(contract, c.schema, c.stack).None?
    ensures Chain(contract, calls) && calls[0] == c && Raises(contract, calls[|calls| - 1])
    decreases Open(contract, c.schema, c.stack), c.schema
  {
    if Raises(contract, c) {
      calls := [c];
    } else {
      var d := FailsBelow(contract, c);
      var rest := FailsSomewhere(contract, d);
      calls := [c] + rest;
    }
  }

  lemma FailurePassesOn(contract: Json, c: Call, d: Call)
    requires Makes(contract, c, d) && Resolve(contract, d.schema, d.stack).None?
    ensures Resolve(contract, c.schema, c.stack).None?
  {
  }

  lemma {:induction false} ChainFails(contract: Json, calls: seq<Call>)
    requires Chain(contract, calls)
    requires Resolve(contract, calls[|calls| - 1].schema, calls[|calls| - 1].stack).None?
    ensures Resolve(contract, calls[0].schema, calls[0].stack).None?
    decreases |calls|
  {
    if |calls| > 1 {
      ChainFails(contract, calls[1..]);
      FailurePassesOn(contract, calls[0], calls[1]);
    }
  }

  /** Resolution raises exactly when one of the calls it reaches does. */
  lemma RaisesIffReached(contract: Json, root: Json, stack: seq<string>)
    ensures Resolve(contract, root, stack).None?
            <==> exists d :: Reached(contract, Call(root, stack), d) && Raises(contract, d)
  {
    if Resolve(contract, root, stack).None? {
      var calls := FailsSomewhere(contract, Call(root, stack));
      assert Reached(contract, Call(root, stack), calls[|calls| - 1]);
    }
    if d :| Reached(contract, Call(root, stack), d) && Raises(contract, d) {
      FailsFrom(contract, Call(root, stack), d);
    }
  }

  /** A call that fails makes every call fail from which it is reached. */
  lemma FailsFrom(contract: Json, root: Call, d: Call)
    requires Reached(contract, root, d) && Resolve(contract, d.schema, d.stack).None?
    ensures Resolve(contract, root.schema, root.stack).None?
  {
    var calls :| Chain(contract, calls) && calls[0] == root && calls[|calls| - 1] == d;
    ChainFails(contract, calls);
  }

  /** The parts of a resolved list or of a resolved object without "$ref". */
  lemma Parts(contract: Json, schema: Json, stack: seq<string>)
    requires Resolve(contract, schema, stack).Some?
    ensures schema.JArr? ==>
      var out := Resolve(contract, schema, stack).value;
      && out.JArr? && |out.items| == |schema.items|
      && forall i | 0 <= i < |schema.items| ::
           && Resolve(contract, schema.items[i], stack).Some?
           && out.items[i] == Resolve(contract, schema.items[i], stack).value
           && Open(contract, schema.items[i], stack) <= Open(contract, schema, stack)
    ensures schema.JObj? && "$ref" !in schema.m ==>
      var out := Resolve(contract, schema, stack).value;
      && out.m.Keys == schema.m.Keys
      && forall k | k in schema.m ::
           && Resolve(contract, schema.m[k], stack).Some?
           && out.m[k] == Resolve(contract, schema.m[k], stack).value
           && Open(contract, schema.m[k], stack) <= Open(contract, schema, stack)
  {
  }

  /** An object without "$ref" resolves key by key. */
  lemma ObjectResolves(contract: Json, m: map<string, Json>, out: map<string, Json>, stack: seq<string>)
    requires "$ref" !in m && m.Keys == out.Keys
    requires forall k | k in m :: Resolve(contract, m[k], stack) == Some(out[k])
    ensures Resolve(contract, JObj(m), stack) == Some(JObj(out))
  {
    assert Resolve(contract, JObj(m), stack).value.m == out;
  }

  // ----- size and markers: what holds on every contract, cyclic or not -----

  /** The document nests at most n levels deep. */
  predicate Within(j: Json, n: nat) {
    match j
    case JArr(xs) => n > 0 && forall i | 0 <= i < |xs| :: Within(xs[i], n - 1)
    case JObj(m) => n > 0 && forall k | k in m :: Within(m[k], n - 1)
    case _ => true
  }

  lemma {:induction false} WithinMore(j: Json, n: nat, more: nat)
    requires Within(j, n) && n <= more
    ensures Within(j, more)
    decreases j
  {
    match j
    case JArr(xs) =>
      forall i | 0 <= i < |xs| ensures Within(xs[i], more - 1) { WithinMore(xs[i], n - 1, more - 1); }
    case JObj(m) =>
      forall k | k in m ensures Within(m[k], more - 1) { WithinMore(m[k], n - 1, more - 1); }
    case _ =>
  }

  lemma TargetWithin(contract: Json, ref: string, deep: nat)
    requires Within(contract, deep)
    ensures ResolveRef(contract, ref).Ok? ==> Within(ResolveRef(contract, ref).value, deep)
  {
    if "#/" <= ref {
      forall j: Json, k | Within(j, deep) && j.JObj? && k in j.m ensures Within(j.m[k], deep) {
        WithinMore(j.m[k], deep - 1, deep);
      }
      WalkKeeps(contract, UnescapeAll(Text.Split(ref[2..], '/')), j => Within(j, deep));
    }
  }

  /** k levels of `deep`, by addition. */
  ghost function Budget(k: nat, deep: nat): nat { if k == 0 then 0 else deep + Budget(k - 1, deep) }

  lemma {:induction false} BudgetIsProduct(k: nat, deep: nat)
    ensures Budget(k, deep) == k * deep
  {
    if k > 0 { BudgetIsProduct(k - 1, deep); }
  }

  /** The result of a call nests at most n levels deep. */
  ghost predicate ResultWithin(contract: Json, schema: Json, stack: seq<string>, n: nat) {
    Resolve(contract, schema, stack).Some? && Within(Resolve(contract, schema, stack).value, n)
  }

  /** These k references are all that can still be followed below a call. */
  ghost predicate AtMost(contract: Json, schema: Json, stack: seq<string>, open: set<string>, k: nat) {
    Open(contract, schema, stack) <= open && |open| == k
  }

  /** Each reference that can still be followed may add one contract's depth. */
  lemma {:induction false} DepthBudget(contract: Json, schema: Json, stack: seq<string>, d: nat, deep: nat,
      open: set<string>, k: nat)
    requires Within(schema, d) && Within(contract, deep) && AtMost(contract, schema, stack, open, k)
    requires Resolve(contract, schema, stack).Some?
    ensures ResultWithin(contract, schema, stack, d + Budget(k, deep))
    decreases k, schema, 1
  {
    if schema.JObj? && "$ref" in schema.m {
      assert schema == JObj(schema.m);
      ReferenceBudget(contract, schema.m, stack, d, deep, open, k);
    } else if schema.JArr? {
      ListBudget(contract, schema, stack, d, deep, open, k);
    } else if schema.JObj? {
      ObjectBudget(contract, schema, stack, d, deep, open, k);
    }
  }

  lemma {:induction false} ListBudget(contract: Json, schema: Json, stack: seq<string>, d: nat, deep: nat,
      open: set<string>, k: nat)
    requires Within(schema, d) && Within(contract, deep) && AtMost(contract, schema, stack, open, k)
    requires Resolve(contract, schema, stack).Some? && schema.JArr?
    ensures ResultWithin(contract, schema, stack, d + Budget(k, deep))
    decreases k, schema, 0
  {
    forall i | 0 <= i < |schema.items|
      ensures ResultWithin(contract, schema.items[i], stack, d - 1 + Budget(k, deep))
    {
      PartBudget(contract, schema, schema.items[i], stack, d - 1, deep, open, k);
    }
    ListWithin(contract, schema, stack, d + Budget(k, deep));
  }

  lemma {:induction false} ObjectBudget(contract: Json, schema: Json, stack: seq<string>, d: nat, deep: nat,
      open: set<string>, k: nat)
    requires Within(schema, d) && Within(contract, deep) && AtMost(contract, schema, stack, open, k)
    requires Resolve(contract, schema, stack).Some? && schema.JObj? && "$ref" !in schema.m
    ensures ResultWithin(contract, schema, stack, d + Budget(k, deep))
    decreases k, schema, 0
  {
    forall key | key in schema.m
      ensures ResultWithin(contract, schema.m[key], stack, d - 1 + Budget(k, deep))
    {
      PartBudget(contract, schema, schema.m[key], stack, d - 1, deep, open, k);
    }
    ObjectWithin(contract, schema, stack, d + Budget(k, deep));
  }

  predicate IsPart(schema: Json, part: Json) {
    || (schema.JArr? && part in schema.items)
    || (schema.JObj? && "$ref" !in schema.m && exists k | k in schema.m :: schema.m[k] == part)
  }

  /** A part can follow no more references than the whole. */
  lemma PartAtMost(contract: Json, schema: Json, part: Json, stack: seq<string>, open: set<string>, k: nat)
    requires IsPart(schema, part) && AtMost(contract, schema, stack, open, k)
    requires Resolve(contract, schema, stack).Some?
    ensures AtMost(contract, part, stack, open, k) && Resolve(contract, part, stack).Some? && part < schema
  {
    Parts(contract, schema, stack);
  }

  lemma {:induction false} PartBudget(contract: Json, schema: Json, part: Json, stack: seq<string>, d: nat, deep: nat,
      open: set<string>, k: nat)
    requires IsPart(schema, part) && Within(part, d) && Within(contract, deep)
    requires AtMost(contract, schema, stack, open, k) && Resolve(contract, schema, stack).Some?
    ensures ResultWithin(contract, part, stack, d + Budget(k, deep))
    decreases k, part, 2
  {
    PartAtMost(contract, schema, part, stack, open, k);
    DepthBudget(contract, part, stack, d, deep, open, k);
  }

  lemma ListWithin(contract: Json, schema: Json, stack: seq<string>, n: nat)
    requires schema.JArr? && Resolve(contract, schema, stack).Some? && n > 0
    requires forall i | 0 <= i < |schema.items| :: ResultWithin(contract, schema.items[i], stack, n - 1)
    ensures ResultWithin(contract, schema, stack, n)
  {
    Parts(contract, schema, stack);
  }

  lemma ObjectWithin(contract: Json, schema: Json, stack: seq<string>, n: nat)
    requires schema.JObj? && "$ref" !in schema.m && Resolve(contract, schema, stack).Some? && n > 0
    requires forall k | k in schema.m :: ResultWithin(contract, schema.m[k], stack, n - 1)
    ensures ResultWithin(contract, schema, stack, n)
  {
    Parts(contract, schema, stack);
  }

  /** Following a reference leaves one reference fewer to follow. */
  lemma FollowLeavesLess(contract: Json, m: map<string, Json>, stack: seq<string>, open: set<string>, k: nat)
    returns (target: Json, rest: set<string>)
    requires "$ref" in m && m["$ref"].JStr? && m["$ref"].s !in stack
    requires Resolve(contract, JObj(m), stack).Some? && AtMost(contract, JObj(m), stack, open, k)
    ensures k > 0 && ResolveRef(contract, m["$ref"].s) == Ok(target)
    ensures Resolve(contract, target, stack + [m["$ref"].s]).Some?
    ensures AtMost(contract, target, stack + [m["$ref"].s], rest, k - 1)
  {
    Follow(contract, m, stack);
    target, rest := ResolveRef(contract, m["$ref"].s).value, open - {m["$ref"].s};
  }

  lemma {:induction false} ReferenceBudget(contract: Json, m: map<string, Json>, stack: seq<string>, d: nat, deep: nat,
      open: set<string>, k: nat)
    requires "$ref" in m && Within(JObj(m), d) && Within(contract, deep) && AtMost(contract, JObj(m), stack, open, k)
    requires Resolve(contract, JObj(m), stack).Some?
    ensures ResultWithin(contract, JObj(m), stack, d + Budget(k, deep))
    decreases k, JObj(m), 0
  {
    var ref := m["$ref"].s;
    if ref in stack {
      MarkerWithin(contract, m, stack, d + Budget(k, deep));
    } else {
      var target, rest := FollowLeavesLess(contract, m, stack, open, k);
      TargetBudget(contract, ref, target, stack + [ref], deep, rest, k);
      LaidOver(contract, m, stack, target, Budget(k, deep), d);
    }
  }

  lemma MarkerWithin(contract: Json, m: map<string, Json>, stack: seq<string>, n: nat)
    requires "$ref" in m && m["$ref"].JStr? && m["$ref"].s in stack && n > 0
    ensures ResultWithin(contract, JObj(m), stack, n)
  {
    WithinMore(CircularMarker(m["$ref"].s), 1, n);
  }

  /** Resolving the target of a reference, with k - 1 others left to follow. */
  lemma {:induction false} TargetBudget(contract: Json, ref: string, target: Json, stack: seq<string>, deep: nat,
      open: set<string>, k: nat)
    requires k > 0 && Within(contract, deep) && ResolveRef(contract, ref) == Ok(target)
    requires AtMost(contract, target, stack, open, k - 1) && Resolve(contract, target, stack).Some?
    ensures ResultWithin(contract, target, stack, Budget(k, deep))
    decreases k - 1, target, 2
  {
    TargetWithin(contract, ref, deep);
    DepthBudget(contract, target, stack, deep, deep, open, k - 1);
    SameBound(Resolve(contract, target, stack).value, deep + Budget(k - 1, deep), Budget(k, deep));
  }

  /** The siblings laid over a resolved target. */
  lemma LaidOver(contract: Json, m: map<string, Json>, stack: seq<string>, target: Json, b: nat, d: nat)
    requires "$ref" in m && m["$ref"].JStr? && m["$ref"].s !in stack && Resolve(contract, JObj(m), stack).Some?
    requires ResolveRef(contract, m["$ref"].s) == Ok(target) && Within(JObj(m), d)
    requires ResultWithin(contract, target, stack + [m["$ref"].s], b)
    ensures ResultWithin(contract, JObj(m), stack, d + b)
  {
    Follow(contract, m, stack);
    MergedWithin(Resolve(contract, target, stack + [m["$ref"].s]).value, m, b, d);
  }

  lemma SameBound(j: Json, n: nat, same: nat)
    requires Within(j, n) && same == n
    ensures Within(j, same)
  {
  }

  lemma MergedWithin(t: Json, m: map<string, Json>, b: nat, d: nat)
    requires t.JObj? && Within(t, b) && Within(JObj(m), d)
    ensures Within(JObj(t.m + Siblings(m)), d + b)
  {
    WithinMore(t, b, d + b);
    WithinMore(JObj(m), d, d + b);
  }

  /** Resolution deepens a schema by at most one contract's depth per reference off the stack. */
  lemma ResolvedDepth(contract: Json, schema: Json, stack: seq<string>, d: nat, deep: nat)
    requires Within(schema, d) && Within(contract, deep)
    requires Resolve(contract, schema, stack).Some?
    ensures Within(Resolve(contract, schema, stack).value, d + |Open(contract, schema, stack)| * deep)
  {
    var open := Open(contract, schema, stack);
    DepthBudget(contract, schema, stack, d, deep, open, |open|);
    BudgetIsProduct(|open|, deep);
    SameBound(Resolve(contract, schema, stack).value, d + Budget(|open|, deep), d + |open| * deep);
  }

  /** Beside every "$ref" there is nothing that holds a reference, and no "x-circular" key. */
  predicate PlainSiblings(j: Json) {
    match j
    case JArr(xs) => forall i | 0 <= i < |xs| :: PlainSiblings(xs[i])
    case JObj(m) =>
      && ("$ref" in m ==> "x-circular" !in m && forall k | k in m && k != "$ref" :: RefFree(m[k]))
      && forall k | k in m :: PlainSiblings(m[k])
    case _ => true
  }

  /** Every "$ref" that is left stands beside `x-circular: true`. */
  predicate OnlyMarkedRefs(j: Json) {
    match j
    case JArr(xs) => forall i | 0 <= i < |xs| :: OnlyMarkedRefs(xs[i])
    case JObj(m) =>
      && ("$ref" in m ==> "x-circular" in m && m["x-circular"] == JBool(true))
      && forall k | k in m :: OnlyMarkedRefs(m[k])
    case _ => true
  }

  lemma {:induction false} RefFreeIsMarked(j: Json)
    requires RefFree(j)
    ensures OnlyMarkedRefs(j)
  {
    match j
    case JArr(xs) => forall i | 0 <= i < |xs| ensures OnlyMarkedRefs(xs[i]) { RefFreeIsMarked(xs[i]); }
    case JObj(m) => forall k | k in m ensures OnlyMarkedRefs(m[k]) { RefFreeIsMarked(m[k]); }
    case _ =>
  }

  lemma TargetPlain(contract: Json, ref: string)
    requires PlainSiblings(contract)
    ensures ResolveRef(contract, ref).Ok? ==> PlainSiblings(ResolveRef(contract, ref).value)
  {
    if "#/" <= ref {
      WalkKeeps(contract, UnescapeAll(Text.Split(ref[2..], '/')), j => PlainSiblings(j));
    }
  }

  /** A reference survives resolution only as a flagged cycle, never silently. */
  lemma {:induction false} SurvivorsAreFlagged(contract: Json, schema: Json, stack: seq<string>)
    requires PlainSiblings(contract) && PlainSiblings(schema)
    requires Resolve(contract, schema, stack).Some?
    ensures OnlyMarkedRefs(Resolve(contract, schema, stack).value)
    decreases Open(contract, schema, stack), schema
  {
    var out := Resolve(contract, schema, stack).value;
    if schema.JObj? && "$ref" in schema.m {
      FollowedIsFlagged(contract, schema.m, stack);
    } else if schema.JArr? {
      Parts(contract, schema, stack);
      forall i | 0 <= i < |schema.items| ensures OnlyMarkedRefs(out.items[i]) {
        SurvivorsAreFlagged(contract, schema.items[i], stack);
      }
    } else if schema.JObj? {
      Parts(contract, schema, stack);
      forall k | k in schema.m ensures OnlyMarkedRefs(out.m[k]) {
        SurvivorsAreFlagged(contract, schema.m[k], stack);
      }
    }
  }

  lemma {:induction false} FollowedIsFlagged(contract: Json, m: map<string, Json>, stack: seq<string>)
    requires "$ref" in m
    requires PlainSiblings(contract) && PlainSiblings(JObj(m))
    requires Resolve(contract, JObj(m), stack).Some?
    ensures OnlyMarkedRefs(Resolve(contract, JObj(m), stack).value)
    decreases Open(contract, JObj(m), stack), JObj(m), 0
  {
    var ref := m["$ref"].s;
    if ref !in stack {
      var target := ResolveRef(contract, ref).value;
      Follow(contract, m, stack);
      TargetPlain(contract, ref);
      SurvivorsAreFlagged(contract, target, stack + [ref]);
      forall k | k in Siblings(m) ensures OnlyMarkedRefs(m[k]) { RefFreeIsMarked(m[k]); }
    }
  }

  // ----- acyclic contracts -----

  /**
    Every reference inside j is a string ranked below `bound`, and the keys beside it hold no
    reference.
   */
  predicate Grounded(j: Json, rank: map<string, nat>, bound: nat) {
    match j
    case JArr(xs) => forall i | 0 <= i < |xs| :: Grounded(xs[i], rank, bound)
    case JObj(m) =>
      && ("$ref" in m ==>
            && m["$ref"].JStr? && m["$ref"].s in rank && rank[m["$ref"].s] < bound
            && forall k | k in m && k != "$ref" :: RefFree(m[k]))
      && forall k | k in m :: Grounded(m[k], rank, bound)
    case _ => true
  }

  /** Every ranked reference resolves, and only to references of lower rank: no cycle. */
  ghost predicate Acyclic(contract: Json, rank: map<string, nat>) {
    forall r | r in rank ::
      ResolveRef(contract, r).Ok? && Grounded(ResolveRef(contract, r).value, rank, rank[r])
  }

  /** No reference on the stack could be met again from a schema grounded below `bound`. */
  predicate Above(stack: seq<string>, rank: map<string, nat>, bound: nat) {
    forall r | r in stack && r in rank :: rank[r] >= bound
  }

  lemma {:induction false} RefFreeIsFixed(contract: Json, j: Json, stack: seq<string>)
    requires RefFree(j)
    ensures Resolve(contract, j, stack) == Some(j)
    decreases j
  {
    match j
    case JArr(xs) =>
      forall i | 0 <= i < |xs| ensures Resolve(contract, xs[i], stack) == Some(xs[i]) {
        RefFreeIsFixed(contract, xs[i], stack);
      }
      assert Resolve(contract, j, stack).value.items == xs;
    case JObj(m) =>
      forall k | k in m ensures Resolve(contract, m[k], stack) == Some(m[k]) {
        RefFreeIsFixed(contract, m[k], stack);
      }
      assert Resolve(contract, j, stack).value.m == m;
    case _ =>
  }

  lemma {:induction false} RefFreeIsGrounded(j: Json, rank: map<string, nat>, bound: nat)
    requires RefFree(j)
    ensures Grounded(j, rank, bound)
    decreases j
  {
    match j
    case JArr(xs) =>
      forall i | 0 <= i < |xs| ensures Grounded(xs[i], rank, bound) { RefFreeIsGrounded(xs[i], rank, bound); }
    case JObj(m) => forall k | k in m ensures Grounded(m[k], rank, bound) { RefFreeIsGrounded(m[k], rank, bound); }
    case _ =>
  }

  /** The schema resolves to something without references, whatever the stack. */
  ghost predicate Settles(contract: Json, schema: Json, stack: seq<string>) {
    && Resolve(contract, schema, stack).Some? && RefFree(Resolve(contract, schema, stack).value)
    && Resolve(contract, schema, stack) == Resolve(contract, schema, [])
  }

  lemma ListSettles(contract: Json, xs: seq<Json>, stack: seq<string>)
    requires forall i | 0 <= i < |xs| :: Settles(contract, xs[i], stack)
    ensures Settles(contract, JArr(xs), stack)
  {
    assert Resolve(contract, JArr(xs), stack).value.items == Resolve(contract, JArr(xs), []).value.items;
  }

  lemma ObjectSettles(contract: Json, m: map<string, Json>, stack: seq<string>)
    requires "$ref" !in m && forall k | k in m :: Settles(contract, m[k], stack)
    ensures Settles(contract, JObj(m), stack)
  {
    assert Resolve(contract, JObj(m), stack).value.m == Resolve(contract, JObj(m), []).value.m;
  }

  /** On an acyclic contract resolution succeeds, leaves no reference, and ignores the stack. */
  lemma {:induction false} AcyclicResolves(contract: Json, rank: map<string, nat>, schema: Json, bound: nat,
      stack: seq<string>)
    requires Acyclic(contract, rank) && Grounded(schema, rank, bound) && Above(stack, rank, bound)
    ensures Resolve(contract, schema, stack).Some?
    ensures RefFree(Resolve(contract, schema, stack).value)
    ensures Resolve(contract, schema, stack) == Resolve(contract, schema, [])
    decreases bound, schema
  {
    if schema.JObj? && "$ref" in schema.m {
      AcyclicFollows(contract, rank, schema.m, bound, stack);
      AcyclicFollows(contract, rank, schema.m, bound, []);
    } else if schema.JArr? {
      forall i | 0 <= i < |schema.items| ensures Settles(contract, schema.items[i], stack) {
        AcyclicResolves(contract, rank, schema.items[i], bound, stack);
      }
      ListSettles(contract, schema.items, stack);
    } else if schema.JObj? {
      forall k | k in schema.m ensures Settles(contract, schema.m[k], stack) {
        AcyclicResolves(contract, rank, schema.m[k], bound, stack);
      }
      ObjectSettles(contract, schema.m, stack);
    }
  }

  /** A reference followed on an acyclic contract: its target, resolved on its own, and the siblings. */
  lemma {:induction false} AcyclicFollows(contract: Json, rank: map<string, nat>, m: map<string, Json>, bound: nat,
      stack: seq<string>)
    requires "$ref" in m
    requires Acyclic(contract, rank) && Grounded(JObj(m), rank, bound) && Above(stack, rank, bound)
    ensures var target := ResolveRef(contract, m["$ref"].s).value;
            && Resolve(contract, target, []).Some?
            && Resolve(contract, JObj(m), stack) == Some(JObj(Resolve(contract, target, []).value.m + Siblings(m)))
    ensures RefFree(Resolve(contract, JObj(m), stack).value)
    decreases bound, JObj(m), 0
  {
    var ref := m["$ref"].s;
    assert rank[ref] < bound;
    assert ref !in stack;
    var target := ResolveRef(contract, ref).value;
    AcyclicResolves(contract, rank, target, rank[ref], stack + [ref]);
    MergedRefFree(Resolve(contract, target, []).value, m);
  }

  lemma MergedRefFree(t: Json, m: map<string, Json>)
    requires t.JObj? && RefFree(t)
    requires forall k | k in m && k != "$ref" :: RefFree(m[k])
    ensures RefFree(JObj(t.m + Siblings(m)))
  {
  }

  /** The two results agree wherever the first holds no reference. */
  ghost predicate AgreeWhereFree(a: map<string, Json>, b: map<string, Json>) {
    "$ref" !in a ==> a.Keys == b.Keys && forall k | k in a && RefFree(a[k]) :: a[k] == b[k]
  }

  /** The results are the same if the first holds no reference, and objects key by key. */
  ghost predicate AgreeingResults(a: Json, b: Json) {
    (a.JObj? && b.JObj? ==> AgreeWhereFree(a.m, b.m)) && (RefFree(a) <==> a == b)
  }

  /** Resolving under the stack succeeds and agrees, where no reference is left, with resolving under none. */
  ghost predicate Agrees(contract: Json, schema: Json, stack: seq<string>) {
    && Resolve(contract, schema, stack).Some? && Resolve(contract, schema, []).Some?
    && AgreeingResults(Resolve(contract, schema, stack).value, Resolve(contract, schema, []).value)
  }

  /** A call, and the keys of its result that siblings further out will replace. */
  datatype View = View(schema: Json, stack: seq<string>, hidden: set<string>)

  /** Call c makes call d, and what d gives can be seen in the result of c. */
  ghost predicate Shows(contract: Json, c: View, d: View) {
    match c.schema
    case JArr(xs) => d.stack == c.stack && d.hidden == {} && d.schema in xs
    case JObj(m) =>
      if "$ref" in m then
        && m["$ref"].JStr? && m["$ref"].s !in c.stack && ResolveRef(contract, m["$ref"].s) == Ok(d.schema)
        && d.stack == c.stack + [m["$ref"].s] && d.hidden == c.hidden + Siblings(m).Keys
      else d.stack == c.stack && d.hidden == {} && exists k | k in m && k !in c.hidden :: m[k] == d.schema
    case _ => false
  }

  ghost predicate Views(contract: Json, views: seq<View>) {
    views != [] && forall i | 0 <= i < |views| - 1 :: Shows(contract, views[i], views[i + 1])
  }

  /** The schema is a reference that is on this stack. */
  predicate RefersTo(schema: Json, stack: seq<string>) {
    schema.JObj? && "$ref" in schema.m && schema.m["$ref"].JStr? && schema.m["$ref"].s in stack
  }

  /** A reference on the stack is met, directly or not, where no sibling hides what comes of it. */
  ghost predicate MeetsStack(contract: Json, schema: Json, stack: seq<string>) {
    exists views: seq<View> ::
      && Views(contract, views) && views[0] == View(schema, stack, {})
      && RefersTo(views[|views| - 1].schema, stack)
  }

  /** Nothing of the result that is not hidden holds a reference. */
  ghost predicate CleanView(contract: Json, c: View)
    requires Resolve(contract, c.schema, c.stack).Some?
  {
    var out := Resolve(contract, c.schema, c.stack).value;
    if c.schema.JObj? then "$ref" !in out.m && forall k | k in out.m && k !in c.hidden :: RefFree(out.m[k])
    else RefFree(out)
  }

  ghost predicate Unclean(contract: Json, c: View) {
    Resolve(contract, c.schema, c.stack).Some? && !CleanView(contract, c)
  }

  lemma OpenView(contract: Json, c: View)
    requires Resolve(contract, c.schema, c.stack).Some? && c.hidden == {}
    ensures CleanView(contract, c) <==> RefFree(Resolve(contract, c.schema, c.stack).value)
  {
  }

  /** What is unclean further in is unclean further out. */
  lemma UncleanPassesOn(contract: Json, c: View, d: View)
    requires Shows(contract, c, d) && Unclean(contract, d) && Resolve(contract, c.schema, c.stack).Some?
    ensures Unclean(contract, c)
  {
    Parts(contract, c.schema, c.stack);
    if c.schema.JArr? {
      OpenView(contract, d);
      var i :| 0 <= i < |c.schema.items| && c.schema.items[i] == d.schema;
      assert !RefFree(Resolve(contract, c.schema, c.stack).value.items[i]);
    } else if "$ref" in c.schema.m {
      UncleanTarget(contract, c, d);
    } else {
      OpenView(contract, d);
      var k :| k in c.schema.m && k !in c.hidden && c.schema.m[k] == d.schema;
      assert !RefFree(Resolve(contract, c.schema, c.stack).value.m[k]);
    }
  }

  lemma UncleanTarget(contract: Json, c: View, d: View)
    requires Shows(contract, c, d) && Unclean(contract, d) && Resolve(contract, c.schema, c.stack).Some?
    requires c.schema.JObj? && "$ref" in c.schema.m
    ensures Unclean(contract, c)
  {
    Follow(contract, c.schema.m, c.stack);
    var t, out := Resolve(contract, d.schema, d.stack).value.m, Resolve(contract, c.schema, c.stack).value.m;
    assert out == t + Siblings(c.schema.m);
    if k :| k in t && k !in d.hidden && !RefFree(t[k]) { assert out[k] == t[k]; }
  }

  lemma {:induction false} ViewsFail(contract: Json, views: seq<View>, stack: seq<string>)
    requires Views(contract, views) && OnStack(stack) <= OnStack(views[0].stack)
    requires RefersTo(views[|views| - 1].schema, stack)
    requires Resolve(contract, views[0].schema, views[0].stack).Some?
    ensures Unclean(contract, views[0])
    decreases |views|
  {
    if |views| == 1 {
      assert views[0].schema.m["$ref"].s in OnStack(stack);
    } else {
      ShownResolves(contract, views[0], views[1]);
      ViewsFail(contract, views[1..], stack);
      UncleanPassesOn(contract, views[0], views[1]);
    }
  }

  lemma ShownResolves(contract: Json, c: View, d: View)
    requires Shows(contract, c, d) && Resolve(contract, c.schema, c.stack).Some?
    ensures Resolve(contract, d.schema, d.stack).Some? && OnStack(c.stack) <= OnStack(d.stack)
  {
    Parts(contract, c.schema, c.stack);
    if c.schema.JObj? && "$ref" in c.schema.m { Follow(contract, c.schema.m, c.stack); }
  }

  /** On an acyclic contract the stack below a call holds the stack above and references of higher rank. */
  ghost predicate Below(c: View, stack: seq<string>, rank: map<string, nat>, bound: nat) {
    forall r | r in c.stack && r in rank && rank[r] < bound :: r in stack
  }

  /** The target of an unclean reference is unclean, as far as it can be seen. */
  lemma UncleanFollowed(contract: Json, c: View, d: View)
    requires c.schema.JObj? && "$ref" in c.schema.m && Shows(contract, c, d) && Unclean(contract, c)
    requires forall k | k in c.schema.m && k != "$ref" :: RefFree(c.schema.m[k])
    ensures Unclean(contract, d)
  {
    var m := c.schema.m;
    Follow(contract, m, c.stack);
    var t, out := Resolve(contract, d.schema, d.stack).value.m, Resolve(contract, c.schema, c.stack).value.m;
    assert out == t + Siblings(m);
    if "$ref" !in out {
      var k :| k in out && k !in c.hidden && !RefFree(out[k]);
      assert k !in Siblings(m) && out[k] == t[k];
    }
  }

  /** A part of an unclean call is unclean. */
  lemma UncleanPart(contract: Json, c: View) returns (d: View)
    requires Unclean(contract, c) && (c.schema.JObj? ==> "$ref" !in c.schema.m)
    ensures Shows(contract, c, d) && Unclean(contract, d) && d.stack == c.stack && d.schema < c.schema
    ensures if c.schema.JArr? then d.schema in c.schema.items
            else c.schema.JObj? && exists k | k in c.schema.m :: c.schema.m[k] == d.schema
  {
    Parts(contract, c.schema, c.stack);
    var out := Resolve(contract, c.schema, c.stack).value;
    if c.schema.JArr? {
      var i :| 0 <= i < |out.items| && !RefFree(out.items[i]);
      d := View(c.schema.items[i], c.stack, {});
    } else {
      var k :| k in out.m && k !in c.hidden && !RefFree(out.m[k]);
      d := View(c.schema.m[k], c.stack, {});
    }
    OpenView(contract, d);
  }

  /** An unclean call refers to the stack, or shows an unclean call. */
  lemma UncleanBelow(contract: Json, rank: map<string, nat>, c: View, bound: nat, stack: seq<string>)
    returns (d: View, low: nat)
    requires Acyclic(contract, rank) && Grounded(c.schema, rank, bound) && Below(c, stack, rank, bound)
    requires Unclean(contract, c) && !RefersTo(c.schema, stack)
    ensures Shows(contract, c, d) && Unclean(contract, d)
    ensures Grounded(d.schema, rank, low) && Below(d, stack, rank, low)
    ensures low < bound || (low == bound && d.schema < c.schema)
  {
    if c.schema.JObj? && "$ref" in c.schema.m {
      var ref := c.schema.m["$ref"].s;
      low := rank[ref];
      d := View(ResolveRef(contract, ref).value, c.stack + [ref], c.hidden + Siblings(c.schema.m).Keys);
      UncleanFollowed(contract, c, d);
    } else {
      low := bound;
      d := UncleanPart(contract, c);
    }
  }

  lemma {:induction false} UncleanSomewhere(contract: Json, rank: map<string, nat>, c: View, bound: nat,
      stack: seq<string>)
    returns (views: seq<View>)
    requires Acyclic(contract, rank) && Grounded(c.schema, rank, bound) && Below(c, stack, rank, bound)
    requires Unclean(contract, c)
    ensures Views(contract, views) && views[0] == c && RefersTo(views[|views| - 1].schema, stack)
    decreases bound, c.schema
  {
    if RefersTo(c.schema, stack) {
      views := [c];
    } else {
      var d, low := UncleanBelow(contract, rank, c, bound, stack);
      var rest := UncleanSomewhere(contract, rank, d, low, stack);
      views := [c] + rest;
    }
  }

  /**
    On an acyclic contract resolution succeeds under any stack, and gives what it gives under the
    empty one exactly unless a reference on the stack is met where no sibling hides it; then, and
    only then, a circular marker is left in the result.
   */
  lemma StackIsIgnoredIff(contract: Json, rank: map<string, nat>, schema: Json, bound: nat, stack: seq<string>)
    requires Acyclic(contract, rank) && Grounded(schema, rank, bound)
    ensures Resolve(contract, schema, stack).Some?
    ensures Resolve(contract, schema, stack) == Resolve(contract, schema, [])
            <==> RefFree(Resolve(contract, schema, stack).value)
    ensures Resolve(contract, schema, stack) == Resolve(contract, schema, []) <==> !MeetsStack(contract, schema, stack)
  {
    StacksAgree(contract, rank, schema, bound, stack);
    var c := View(schema, stack, {});
    OpenView(contract, c);
    if Unclean(contract, c) {
      var views := UncleanSomewhere(contract, rank, c, bound, stack);
    }
    if views: seq<View> :|
      Views(contract, views) && views[0] == c && RefersTo(views[|views| - 1].schema, stack)
    {
      ViewsFail(contract, views, stack);
    }
  }

  lemma {:induction false} StacksAgree(contract: Json, rank: map<string, nat>, schema: Json, bound: nat,
      stack: seq<string>)
    requires Acyclic(contract, rank) && Grounded(schema, rank, bound)
    ensures Agrees(contract, schema, stack)
    decreases bound, schema, 1
  {
    AcyclicResolves(contract, rank, schema, bound, []);
    if schema.JObj? && "$ref" in schema.m {
      assert schema == JObj(schema.m);
      ReferencesAgree(contract, rank, schema.m, bound, stack);
    } else if schema.JArr? {
      forall i | 0 <= i < |schema.items| ensures Agrees(contract, schema.items[i], stack) {
        StacksAgree(contract, rank, schema.items[i], bound, stack);
      }
      ListsAgree(contract, schema.items, stack);
    } else if schema.JObj? {
      forall k | k in schema.m ensures Agrees(contract, schema.m[k], stack) {
        StacksAgree(contract, rank, schema.m[k], bound, stack);
      }
      ObjectsAgree(contract, schema.m, stack);
    }
  }

  lemma {:induction false} ReferencesAgree(contract: Json, rank: map<string, nat>, m: map<string, Json>, bound: nat,
      stack: seq<string>)
    requires Acyclic(contract, rank) && Grounded(JObj(m), rank, bound) && "$ref" in m
    ensures Agrees(contract, JObj(m), stack)
    decreases bound, JObj(m), 0
  {
    var ref := m["$ref"].s;
    AcyclicFollows(contract, rank, m, bound, []);
    if ref !in stack { StacksAgree(contract, rank, ResolveRef(contract, ref).value, rank[ref], stack + [ref]); }
    AgreeingObjects(Resolve(contract, JObj(m), stack).value, Resolve(contract, JObj(m), []).value);
  }

  lemma ListsAgree(contract: Json, xs: seq<Json>, stack: seq<string>)
    requires forall i | 0 <= i < |xs| :: Agrees(contract, xs[i], stack)
    requires Resolve(contract, JArr(xs), []).Some? && RefFree(Resolve(contract, JArr(xs), []).value)
    ensures Agrees(contract, JArr(xs), stack)
  {
    Parts(contract, JArr(xs), []);
    Parts(contract, JArr(xs), stack);
    var a, b := Resolve(contract, JArr(xs), stack).value, Resolve(contract, JArr(xs), []).value;
    if RefFree(a) { assert a.items == b.items; }
  }

  lemma ObjectsAgree(contract: Json, m: map<string, Json>, stack: seq<string>)
    requires "$ref" !in m && forall k | k in m :: Agrees(contract, m[k], stack)
    requires Resolve(contract, JObj(m), []).Some? && RefFree(Resolve(contract, JObj(m), []).value)
    ensures Agrees(contract, JObj(m), stack)
  {
    KeysAgree(contract, m, stack, KeysResolve(contract, m, stack), KeysResolve(contract, m, []));
    AgreeingObjects(Resolve(contract, JObj(m), stack).value, Resolve(contract, JObj(m), []).value);
  }

  /** The resolved keys of an object without "$ref". */
  ghost function KeysResolve(contract: Json, m: map<string, Json>, stack: seq<string>): (out: map<string, Json>)
    requires "$ref" !in m && forall k | k in m :: Resolve(contract, m[k], stack).Some?
    ensures Resolve(contract, JObj(m), stack) == Some(JObj(out))
    ensures out.Keys == m.Keys && forall k | k in m :: Resolve(contract, m[k], stack) == Some(out[k])
  {
    Resolve(contract, JObj(m), stack).value.m
  }

  lemma KeysAgree(contract: Json, m: map<string, Json>, stack: seq<string>, a: map<string, Json>, b: map<string, Json>)
    requires a.Keys == m.Keys == b.Keys && forall k | k in m :: Agrees(contract, m[k], stack)
    requires forall k | k in m :: Resolve(contract, m[k], stack) == Some(a[k])
    requires forall k | k in m :: Resolve(contract, m[k], []) == Some(b[k])
    ensures AgreeWhereFree(a, b)
  {
    forall k | k in a && RefFree(a[k]) ensures a[k] == b[k] {
      assert Agrees(contract, m[k], stack);
    }
  }

  lemma AgreeingObjects(a: Json, b: Json)
    requires a.JObj? && b.JObj? && AgreeWhereFree(a.m, b.m) && RefFree(b)
    ensures AgreeingResults(a, b)
  {
    if RefFree(a) { assert a.m == b.m; }
  }

  /** Resolving a second time changes nothing. */
  lemma ResolveTwice(contract: Json, rank: map<string, nat>, schema: Json, bound: nat, stack: seq<string>)
    requires Acyclic(contract, rank) && Grounded(schema, rank, bound)
    ensures Resolve(contract, schema, []).Some?
    ensures Resolve(contract, Resolve(contract, schema, []).value, stack) == Resolve(contract, schema, [])
  {
    AcyclicResolves(contract, rank, schema, bound, []);
    RefFreeIsFixed(contract, Resolve(contract, schema, []).value, stack);
  }
}
