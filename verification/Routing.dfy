/**
  The paths of the pinned contract, as the harness matches them (harness/validator.py) and as the
  service routes them (api/main.py).
 */
module Routing {
  import opened Json
  import opened Text
  import opened Plan
  import opened Paths
  import opened DeviceContract
  import opened Service
  import opened Validator

  // ----- the templates, segment by segment -----

  lemma SplitOf(parts: seq<string>, template: string)
    requires parts != [] && template == Join(parts, '/')
    requires forall i | 0 <= i < |parts| :: NoSlash(parts[i])
    ensures Split(template, '/') == parts
  {
    SplitJoin(parts, '/');
  }

  lemma JoinFour(a: string, b: string, c: string, d: string)
    ensures Join([a, b], '/') == a + "/" + b
    ensures Join([a, b, c], '/') == a + "/" + (b + "/" + c)
    ensures Join([a, b, c, d], '/') == a + "/" + (b + "/" + (c + "/" + d))
  {
    assert [c, d][1..] == [d];
    assert [b, c, d][1..] == [c, d];
    assert [a, b, c, d][1..] == [b, c, d];
    assert [a, b, c][1..] == [b, c] && [b, c][1..] == [c] && [a, b][1..] == [b];
    assert Join([c, d], '/') == c + "/" + d;
    assert Join([b, c, d], '/') == b + "/" + (c + "/" + d);
    assert Join([b, c], '/') == b + "/" + c;
  }

  lemma SplitDevices()
    ensures Split(DEVICES, '/') == ["", "devices"]
  {
    JoinFour("", "devices", "", "");
    SplitOf(["", "devices"], DEVICES);
  }

  lemma SplitHealth()
    ensures Split(HEALTH, '/') == ["", "health"]
  {
    JoinFour("", "health", "", "");
    SplitOf(["", "health"], HEALTH);
  }

  lemma SplitSearch()
    ensures Split(SEARCH, '/') == ["", "devices", "search"]
  {
    JoinFour("", "devices", "search", "");
    SplitOf(["", "devices", "search"], SEARCH);
  }

  lemma SplitDetail()
    ensures Split(DETAIL, '/') == ["", "devices", "{device_id}"]
  {
    JoinFour("", "devices", "{device_id}", "");
    SplitOf(["", "devices", "{device_id}"], DETAIL);
  }

  lemma SplitState()
    ensures Split(STATE, '/') == ["", "devices", "{device_id}", "status"]
  {
    JoinFour("", "devices", "{device_id}", "status");
    assert "{device_id}" + "/" + "status" == "{device_id}/status";
    assert "devices" + "/" + "{device_id}/status" == "devices/{device_id}/status";
    SplitOf(["", "devices", "{device_id}", "status"], STATE);
  }

  predicate Whole(segment: string) { IsParameter(segment) || NoBraces(segment) }

  /** A template of whole segments accepts the paths that its segments match. */
  lemma Fits(template: string, segments: seq<string>, path: string)
    requires Split(template, '/') == segments && forall i | 0 <= i < |segments| :: Whole(segments[i])
    requires !EndsWithNewline(path)
    ensures WholeSegments(template)
    ensures Matches(template, path) <==> SegmentsMatch(segments, Split(path, '/'))
  {
    forall i | 0 <= i < |Split(template, '/')|
      ensures IsParameter(Split(template, '/')[i]) || NoBraces(Split(template, '/')[i])
    {
      assert Whole(segments[i]);
    }
    PatternMeansSegments(template, path);
  }

  predicate Literal(segment: string) { !IsParameter(segment) && Whole(segment) }

  lemma TwoFit(template: string, a: string, b: string, path: string)
    requires Split(template, '/') == [a, b] && Literal(a) && Literal(b) && !EndsWithNewline(path)
    ensures WholeSegments(template)
    ensures Matches(template, path) <==> IsTwo(Split(path, '/'), a, b)
  {
    var ps := Split(path, '/');
    assert [a, b][0] == a && [a, b][1] == b;
    Fits(template, [a, b], path);
  }

  lemma ThreeFit(template: string, a: string, b: string, c: string, path: string)
    requires Split(template, '/') == [a, b, c] && Literal(a) && Literal(b) && Whole(c) && !EndsWithNewline(path)
    ensures WholeSegments(template)
    ensures Matches(template, path) <==>
      if IsParameter(c) then HasThird(Split(path, '/'), a, b) else IsThree(Split(path, '/'), a, b, c)
  {
    assert [a, b, c][0] == a && [a, b, c][1] == b && [a, b, c][2] == c;
    Fits(template, [a, b, c], path);
  }

  lemma FourFit(template: string, a: string, b: string, c: string, d: string, path: string)
    requires Split(template, '/') == [a, b, c, d]
    requires Literal(a) && Literal(b) && IsParameter(c) && Whole(c) && Literal(d)
    requires !EndsWithNewline(path)
    ensures WholeSegments(template)
    ensures Matches(template, path) <==> HasThirdAnd(Split(path, '/'), a, b, d)
  {
    assert [a, b, c, d][0] == a && [a, b, c, d][1] == b && [a, b, c, d][2] == c && [a, b, c, d][3] == d;
    Fits(template, [a, b, c, d], path);
  }

  lemma SegmentsAreWhole()
    ensures IsParameter("{device_id}") && Whole("{device_id}")
    ensures Literal("") && Literal("devices") && Literal("health") && Literal("search") && Literal("status")
  {
    assert "{device_id}"[1..10] == "device_id";
  }

  lemma DevicesFits(path: string)
    requires !EndsWithNewline(path)
    ensures WholeSegments(DEVICES) && (Matches(DEVICES, path) <==> IsTwo(Split(path, '/'), "", "devices"))
  {
    SplitDevices();
    SegmentsAreWhole();
    TwoFit(DEVICES, "", "devices", path);
  }

  lemma HealthFits(path: string)
    requires !EndsWithNewline(path)
    ensures WholeSegments(HEALTH) && (Matches(HEALTH, path) <==> IsTwo(Split(path, '/'), "", "health"))
  {
    SplitHealth();
    SegmentsAreWhole();
    TwoFit(HEALTH, "", "health", path);
  }

  lemma SearchFits(path: string)
    requires !EndsWithNewline(path)
    ensures WholeSegments(SEARCH) && (Matches(SEARCH, path) <==> IsThree(Split(path, '/'), "", "devices", "search"))
  {
    SplitSearch();
    SegmentsAreWhole();
    ThreeFit(SEARCH, "", "devices", "search", path);
  }

  lemma DetailFits(path: string)
    requires !EndsWithNewline(path)
    ensures WholeSegments(DETAIL) && (Matches(DETAIL, path) <==> HasThird(Split(path, '/'), "", "devices"))
  {
    SplitDetail();
    SegmentsAreWhole();
    ThreeFit(DETAIL, "", "devices", "{device_id}", path);
  }

  lemma StateFits(path: string)
    requires !EndsWithNewline(path)
    ensures WholeSegments(STATE) && (Matches(STATE, path) <==> HasThirdAnd(Split(path, '/'), "", "devices", "status"))
  {
    SplitState();
    SegmentsAreWhole();
    FourFit(STATE, "", "devices", "{device_id}", "status", path);
  }

  // ----- choosing -----

  /** Which template a path fits, by its segments: the literal one first. */
  function TemplateOf(path: string): Option<string> {
    var ps := Split(path, '/');
    if IsTwo(ps, "", "devices") then Some(DEVICES)
    else if IsTwo(ps, "", "health") then Some(HEALTH)
    else if IsThree(ps, "", "devices", "search") then Some(SEARCH)
    else if HasThird(ps, "", "devices") then Some(DETAIL)
    else if HasThirdAnd(ps, "", "devices", "status") then Some(STATE)
    else None
  }

  lemma OnlyOne(templates: seq<string>, path: string, found: Option<string>)
    requires forall t | t in templates && Matches(t, path) :: found == Some(t)
    requires found.Some? ==> found.value in templates && Matches(found.value, path)
    ensures MatchPathTemplate(templates, path) == found
  {
  }

  lemma OneOf(t: string)
    requires t in Templates()
    ensures t == DEVICES || t == SEARCH || t == DETAIL || t == STATE || t == HEALTH
  {
  }

  lemma SearchIsItself(path: string)
    requires IsThree(Split(path, '/'), "", "devices", "search") && !EndsWithNewline(path)
    ensures path == SEARCH
  {
    SplitSearch();
    JoinSplit(path, '/');
    JoinSplit(SEARCH, '/');
    assert Split(path, '/') == Split(SEARCH, '/');
  }

  lemma TemplatesAreWhole(path: string)
    requires !EndsWithNewline(path)
    ensures forall t | t in Templates() :: WholeSegments(t)
  {
    DevicesFits(path);
    HealthFits(path);
    SearchFits(path);
    DetailFits(path);
    StateFits(path);
    forall t | t in Templates() ensures WholeSegments(t) { OneOf(t); }
  }

  lemma SearchIsLiteral()
    ensures AllLiteral(SEARCH)
  {
    SplitSearch();
    SegmentsAreWhole();
  }

  lemma TemplatesHold()
    ensures DEVICES in Templates() && SEARCH in Templates() && DETAIL in Templates()
    ensures STATE in Templates() && HEALTH in Templates()
  {
    assert Templates()[0] == DEVICES && Templates()[1] == SEARCH && Templates()[2] == DETAIL;
    assert Templates()[3] == STATE && Templates()[4] == HEALTH;
  }

  lemma SearchIsChosen(path: string)
    requires path == SEARCH && !EndsWithNewline(path)
    ensures MatchPathTemplate(Templates(), path) == Some(SEARCH)
  {
    TemplatesHold();
    TemplatesAreWhole(path);
    SearchIsLiteral();
    LiteralTemplateWins(Templates(), path);
  }

  lemma MatchedIsChosen(path: string, t: string)
    requires !EndsWithNewline(path) && t in Templates() && Matches(t, path)
    requires !IsThree(Split(path, '/'), "", "devices", "search")
    ensures TemplateOf(path) == Some(t)
  {
    OneOf(t);
    DevicesFits(path);
    HealthFits(path);
    SearchFits(path);
    DetailFits(path);
    StateFits(path);
  }

  lemma ChosenMatches(path: string, t: string)
    requires !EndsWithNewline(path) && TemplateOf(path) == Some(t)
    ensures t in Templates() && Matches(t, path)
  {
    TemplatesHold();
    DevicesFits(path);
    HealthFits(path);
    SearchFits(path);
    DetailFits(path);
    StateFits(path);
  }

  /** The harness chooses the template that the segments say. */
  lemma Chosen(path: string)
    requires !EndsWithNewline(path)
    ensures MatchPathTemplate(Templates(), path) == TemplateOf(path)
  {
    if IsThree(Split(path, '/'), "", "devices", "search") {
      SearchIsItself(path);
      SearchIsChosen(path);
    } else {
      forall t | t in Templates() && Matches(t, path) ensures TemplateOf(path) == Some(t) {
        MatchedIsChosen(path, t);
      }
      if TemplateOf(path).Some? { ChosenMatches(path, TemplateOf(path).value); }
      OnlyOne(Templates(), path, TemplateOf(path));
    }
  }

  // ----- methods -----

  /** As the plan loader leaves it. */
  predicate UpperCase(m: string) { forall i | 0 <= i < |m| :: !('a' <= m[i] <= 'z') }

  lemma LowerIs(m: string, upper: string, lower: string)
    requires UpperCase(m) && UpperCase(upper) && |upper| == |lower|
    requires forall i | 0 <= i < |upper| :: lower[i] == LowerChar(upper[i])
    ensures Lower(m) == lower <==> m == upper
  {
    LowerEach(m);
    if |m| == |upper| {
      forall i | 0 <= i < |m| ensures Lower(m)[i] == lower[i] <==> m[i] == upper[i] {
      }
    }
  }

  lemma GetName(m: string)
    requires UpperCase(m)
    ensures Lower(m) == "get" <==> m == "GET"
  {
    LowerIs(m, "GET", "get");
  }

  lemma PutName(m: string)
    requires UpperCase(m)
    ensures Lower(m) == "put" <==> m == "PUT"
  {
    LowerIs(m, "PUT", "put");
  }

  lemma PostName(m: string)
    requires UpperCase(m)
    ensures Lower(m) == "post" <==> m == "POST"
  {
    LowerIs(m, "POST", "post");
  }

  lemma PatchName(m: string)
    requires UpperCase(m)
    ensures Lower(m) == "patch" <==> m == "PATCH"
  {
    LowerIs(m, "PATCH", "patch");
  }

  lemma DeleteName(m: string)
    requires UpperCase(m)
    ensures Lower(m) == "delete" <==> m == "DELETE"
  {
    LowerIs(m, "DELETE", "delete");
  }

  lemma MethodNames(m: string)
    requires UpperCase(m)
    ensures Lower(m) == "get" <==> m == "GET"
    ensures Lower(m) == "put" <==> m == "PUT"
    ensures Lower(m) == "post" <==> m == "POST"
    ensures Lower(m) == "patch" <==> m == "PATCH"
    ensures Lower(m) == "delete" <==> m == "DELETE"
  {
    GetName(m);
    PutName(m);
    PostName(m);
    PatchName(m);
    DeleteName(m);
  }

  // ----- operations -----

  lemma FoundIn(components: map<string, Json>, items: map<string, Json>, templates: seq<string>, m: string, t: string)
    requires t in items && items[t].JObj?
    ensures FindOperation(Contract(Document(components, items), templates), m, t)
            == if Lower(m) in items[t].m && items[t].m[Lower(m)] != JNull then Some(items[t].m[Lower(m)]) else None
  {
  }

  lemma FoundOne(components: map<string, Json>, items: map<string, Json>, templates: seq<string>, m: string, t: string,
      name: string, op: Json)
    requires t in items && items[t] == JObj(map[name := op]) && op.JObj?
    ensures FindOperation(Contract(Document(components, items), templates), m, t)
            == if Lower(m) == name then Some(op) else None
  {
    FoundIn(components, items, templates, m, t);
  }

  lemma FoundTwo(components: map<string, Json>, items: map<string, Json>, templates: seq<string>, m: string, t: string,
      n1: string, op1: Json, n2: string, op2: Json)
    requires t in items && items[t] == JObj(map[n1 := op1, n2 := op2])
    requires n1 != n2 && op1.JObj? && op2.JObj?
    ensures FindOperation(Contract(Document(components, items), templates), m, t)
            == if Lower(m) == n1 then Some(op1) else if Lower(m) == n2 then Some(op2) else None
  {
    FoundIn(components, items, templates, m, t);
  }

  lemma FoundThree(components: map<string, Json>, items: map<string, Json>, templates: seq<string>, m: string,
      t: string, n1: string, op1: Json, n2: string, op2: Json, n3: string, op3: Json)
    requires t in items && items[t] == JObj(map[n1 := op1, n2 := op2, n3 := op3])
    requires n1 != n2 && n1 != n3 && n2 != n3 && op1.JObj? && op2.JObj? && op3.JObj?
    ensures FindOperation(Contract(Document(components, items), templates), m, t)
            == if Lower(m) == n1 then Some(op1) else if Lower(m) == n2 then Some(op2)
               else if Lower(m) == n3 then Some(op3) else None
  {
    FoundIn(components, items, templates, m, t);
  }

  /** The operation that the contract declares for a method on a template. */
  function NameAt(t: string, m: string): Option<OpName> {
    if t == DEVICES then
      if m == "GET" then Some(AtList) else if m == "POST" then Some(AtCreate) else None
    else if t == SEARCH then
      if m == "GET" then Some(AtSearch) else None
    else if t == DETAIL then
      if m == "GET" then Some(AtGet)
      else if m == "PUT" then Some(AtReplace)
      else if m == "DELETE" then Some(AtDelete)
      else None
    else if t == STATE then
      if m == "PATCH" then Some(AtState) else None
    else if t == HEALTH then
      if m == "GET" then Some(AtHealth) else None
    else None
  }

  function AsOperation(name: Option<OpName>): Option<Json> {
    match name
    case None => None
    case Some(n) => Some(Op(ResponseTable(n)))
  }

  lemma TemplatesDiffer()
    ensures |DEVICES| == 8 && |SEARCH| == 15 && |DETAIL| == 20 && |STATE| == 27 && |HEALTH| == 7
  {
  }

  lemma DevicesPromises(m: string)
    requires UpperCase(m)
    ensures FindOperation(Pinned(), m, DEVICES) == AsOperation(NameAt(DEVICES, m))
  {
    MethodNames(m);
    ItemsHold();
    FoundTwo(Components(), Items(), Templates(), m, DEVICES,
      "get", Op(ResponseTable(AtList)), "post", Op(ResponseTable(AtCreate)));
  }

  lemma SearchPromises(m: string)
    requires UpperCase(m)
    ensures FindOperation(Pinned(), m, SEARCH) == AsOperation(NameAt(SEARCH, m))
  {
    MethodNames(m);
    TemplatesDiffer();
    ItemsHold();
    FoundOne(Components(), Items(), Templates(), m, SEARCH, "get", Op(ResponseTable(AtSearch)));
  }

  lemma DetailPromises(m: string)
    requires UpperCase(m)
    ensures FindOperation(Pinned(), m, DETAIL) == AsOperation(NameAt(DETAIL, m))
  {
    MethodNames(m);
    TemplatesDiffer();
    ItemsHold();
    FoundThree(Components(), Items(), Templates(), m, DETAIL,
      "get", Op(ResponseTable(AtGet)), "put", Op(ResponseTable(AtReplace)), "delete", Op(ResponseTable(AtDelete)));
  }

  lemma StatePromises(m: string)
    requires UpperCase(m)
    ensures FindOperation(Pinned(), m, STATE) == AsOperation(NameAt(STATE, m))
  {
    MethodNames(m);
    TemplatesDiffer();
    ItemsHold();
    FoundOne(Components(), Items(), Templates(), m, STATE, "patch", Op(ResponseTable(AtState)));
  }

  lemma HealthPromises(m: string)
    requires UpperCase(m)
    ensures FindOperation(Pinned(), m, HEALTH) == AsOperation(NameAt(HEALTH, m))
  {
    MethodNames(m);
    TemplatesDiffer();
    ItemsHold();
    FoundOne(Components(), Items(), Templates(), m, HEALTH, "get", Op(ResponseTable(AtHealth)));
  }

  lemma ItemsHold()
    ensures DEVICES in Items() && SEARCH in Items() && DETAIL in Items() && STATE in Items() && HEALTH in Items()
    ensures Items()[DEVICES] == JObj(map["get" := Op(ResponseTable(AtList)), "post" := Op(ResponseTable(AtCreate))])
    ensures Items()[SEARCH] == JObj(map["get" := Op(ResponseTable(AtSearch))])
    ensures Items()[DETAIL] ==
      JObj(map["get" := Op(ResponseTable(AtGet)), "put" := Op(ResponseTable(AtReplace)),
        "delete" := Op(ResponseTable(AtDelete))])
    ensures Items()[STATE] == JObj(map["patch" := Op(ResponseTable(AtState))])
    ensures Items()[HEALTH] == JObj(map["get" := Op(ResponseTable(AtHealth))])
  {
    PathTableHolds(
      JObj(map["get" := Op(ResponseTable(AtList)), "post" := Op(ResponseTable(AtCreate))]),
      JObj(map["get" := Op(ResponseTable(AtSearch))]),
      JObj(map["get" := Op(ResponseTable(AtGet)), "put" := Op(ResponseTable(AtReplace)),
        "delete" := Op(ResponseTable(AtDelete))]),
      JObj(map["patch" := Op(ResponseTable(AtState))]),
      JObj(map["get" := Op(ResponseTable(AtHealth))]));
  }

  // ----- the two tables agree -----

  /** The operation that the contract declares for a request, by its segments and its method. */
  function NameFor(r: Request): Option<OpName> {
    match TemplateOf(r.path)
    case None => None
    case Some(t) => NameAt(t, r.httpMethod)
  }

  /** The contract's name for what the service does with a request. */
  function NameOf(op: Operation): OpName {
    match op
    case Health => AtHealth
    case List(_, _) => AtList
    case Create(_) => AtCreate
    case Search(_, _) => AtSearch
    case Get(_) => AtGet
    case Replace(_, _) => AtReplace
    case Delete(_) => AtDelete
    case SetState(_, _) => AtState
  }

  lemma PromisesHold(m: string, t: string)
    requires UpperCase(m) && t in Templates()
    ensures FindOperation(Pinned(), m, t) == AsOperation(NameAt(t, m))
  {
    OneOf(t);
    DevicesPromises(m);
    SearchPromises(m);
    DetailPromises(m);
    StatePromises(m);
    HealthPromises(m);
  }

  /** The harness finds the operation that the contract declares, and no other. */
  lemma ContractSays(r: Request)
    requires UpperCase(r.httpMethod) && !EndsWithNewline(r.path)
    ensures var chosen := MatchPathTemplate(Pinned().paths, r.path);
      && chosen == TemplateOf(r.path)
      && (chosen.Some? ==> FindOperation(Pinned(), r.httpMethod, chosen.value) == AsOperation(NameFor(r)))
  {
    Chosen(r.path);
    if TemplateOf(r.path).Some? {
      ChosenIsTemplate(r.path);
      PromisesHold(r.httpMethod, TemplateOf(r.path).value);
    }
  }

  lemma ChosenIsTemplate(path: string)
    requires TemplateOf(path).Some?
    ensures TemplateOf(path).value in Templates()
  {
    TemplatesHold();
  }

  lemma RoutedAsNamed(r: Request)
    requires !IsThree(Split(r.path, '/'), "", "devices", "search")
    ensures Route(r).Some? <==> NameFor(r).Some?
    ensures Route(r).Some? ==> NameFor(r) == Some(NameOf(Route(r).value))
  {
    TemplatesDiffer();
  }

  lemma SearchRouted(r: Request)
    requires IsThree(Split(r.path, '/'), "", "devices", "search")
    ensures TemplateOf(r.path) == Some(SEARCH)
    ensures Route(r).Some? <==> r.httpMethod == "GET" || r.httpMethod == "PUT" || r.httpMethod == "DELETE"
    ensures r.httpMethod == "GET" ==> Route(r).value.Search?
  {
  }

  lemma SearchBySegments(path: string)
    requires !EndsWithNewline(path)
    ensures path == SEARCH <==> IsThree(Split(path, '/'), "", "devices", "search")
  {
    if path == SEARCH {
      SearchSplits(path);
    } else if IsThree(Split(path, '/'), "", "devices", "search") {
      SearchIsItself(path);
    }
  }

  lemma SearchSplits(path: string)
    requires path == SEARCH
    ensures IsThree(Split(path, '/'), "", "devices", "search")
  {
    SplitSearch();
  }

  lemma SearchTakes(m: string)
    ensures NameAt(SEARCH, m) == if m == "GET" then Some(AtSearch) else None
  {
    TemplatesDiffer();
  }

  lemma SearchIff(r: Request)
    requires IsThree(Split(r.path, '/'), "", "devices", "search")
    ensures Route(r).Some? <==> NameFor(r).Some? || r.httpMethod == "PUT" || r.httpMethod == "DELETE"
    ensures NameFor(r).Some? ==> NameFor(r) == Some(NameOf(Route(r).value))
  {
    SearchTakes(r.httpMethod);
    SearchRouted(r);
  }

  /** A route is the operation that the contract declares, and the two that it does not. */
  lemma RoutedIff(r: Request)
    requires !EndsWithNewline(r.path)
    ensures Route(r).Some? <==>
      NameFor(r).Some? || (r.path == SEARCH && (r.httpMethod == "PUT" || r.httpMethod == "DELETE"))
    ensures NameFor(r).Some? ==> NameFor(r) == Some(NameOf(Route(r).value))
  {
    SearchBySegments(r.path);
    if IsThree(Split(r.path, '/'), "", "devices", "search") {
      SearchIff(r);
    } else {
      RoutedAsNamed(r);
    }
  }

  /**
    The service has a route for exactly the operations that the contract declares, and besides for
    PUT and DELETE on /devices/search, which it takes for a device.
   */
  lemma RoutesAgree(r: Request)
    requires UpperCase(r.httpMethod) && !EndsWithNewline(r.path)
    ensures var t := MatchPathTemplate(Pinned().paths, r.path);
      Route(r).Some? <==>
        || (t.Some? && FindOperation(Pinned(), r.httpMethod, t.value).Some?)
        || (r.path == SEARCH && (r.httpMethod == "PUT" || r.httpMethod == "DELETE"))
  {
    ContractSays(r);
    RoutedIff(r);
  }
}
