/**
  What a case's expectations come to on the documents that the service answers with:
  harness/runner.py, `_dig` and `check_expectations`, on api/models.py, in plain words.
 */
module Assertions {
  import opened Json
  import opened Text
  import opened Validator
  import opened Expectations
  import opened Store
  import opened Service

  /** An expectation that asks nothing but that there is a value. */
  function At(path: string): Expectation { Expectation(path, None, None, None, None, None) }

  // ----- Python's equality -----

  /** Texts equal the same text; null null; numbers, with true as 1 and false as 0, equal numbers of the same value. */
  lemma PyEqualMeans(t: string, u: string, n: int, k: int, q: real, r: real, b: bool, v: Json)
    ensures PyEqual(JStr(t), JStr(u)) <==> t == u
    ensures PyEqual(JInt(n), JInt(k)) <==> n == k
    ensures PyEqual(JInt(n), JFloat(q)) <==> n as real == q
    ensures PyEqual(JFloat(q), JFloat(r)) <==> q == r
    ensures PyEqual(JBool(b), JInt(n)) <==> n == if b then 1 else 0
    ensures PyEqual(JNull, v) <==> v == JNull
    ensures !v.JStr? ==> !PyEqual(JStr(t), v)
    ensures v.JStr? || v.JNull? || v.JArr? || v.JObj? ==> !PyEqual(JInt(n), v) && !PyEqual(JBool(b), v)
  {
  }

  /** Lists are equal item by item, dictionaries member by member, in no order. */
  lemma PyEqualInside(xs: seq<Json>, ys: seq<Json>, m: map<string, Json>, k: map<string, Json>)
    ensures PyEqual(JArr(xs), JArr(ys)) <==> |xs| == |ys| && forall i | 0 <= i < |xs| :: PyEqual(xs[i], ys[i])
    ensures PyEqual(JObj(m), JObj(k)) <==> m.Keys == k.Keys && forall x | x in m :: PyEqual(m[x], k[x])
    ensures !PyEqual(JArr(xs), JObj(m)) && !PyEqual(JObj(m), JArr(xs))
  {
  }

  // ----- paths -----

  lemma DigName(m: map<string, Json>, name: string)
    requires name != "" && '.' !in name
    ensures Dig(JObj(m), name) == if name in m then Some(m[name]) else None
  {
    SplitAtSeparator(name, "", '.');
    assert DigParts(JObj(m), [name]) == if name in m then Some(m[name]) else None by {
      if name in m { assert [name][1..] == []; }
    }
  }

  /** A list item's member, the item counted from the front or, with a minus, from the end. */
  lemma DigItem(m: map<string, Json>, list: string, xs: seq<Json>, part: string, name: string)
    requires '.' !in list && '.' !in part && '.' !in name
    requires list in m && m[list] == JArr(xs)
    ensures Dig(JObj(m), list + "." + part + "." + name)
            == match ListItem(xs, part)
               case None => None
               case Some(x) => Member(x, name)
  {
    var path := list + "." + part + "." + name;
    assert path == list + ['.'] + (part + ['.'] + name);
    SplitAtSeparator(list, part + ['.'] + name, '.');
    SplitAtSeparator(part, name, '.');
    SplitAtSeparator(name, "", '.');
    assert Split(path, '.') == [list, part, name];
    ThreeParts(JObj(m), list, part, name);
  }

  lemma ThreeParts(body: Json, a: string, b: string, c: string)
    ensures DigParts(body, [a, b, c])
            == match Member(body, a)
               case None => None
               case Some(x) =>
                 match Member(x, b)
                 case None => None
                 case Some(y) => Member(y, c)
  {
    assert [a, b, c][1..] == [b, c] && [b, c][1..] == [c] && [c][1..] == [];
    if Member(body, a).Some? {
      var x := Member(body, a).value;
      TwoParts(x, b, c);
    }
  }

  lemma TwoParts(body: Json, a: string, b: string)
    ensures DigParts(body, [a, b])
            == match Member(body, a)
               case None => None
               case Some(x) => Member(x, b)
  {
    assert [a, b][1..] == [b] && [b][1..] == [];
    if Member(body, a).Some? { OnePart(Member(body, a).value, b); }
  }

  lemma OnePart(body: Json, a: string)
    ensures DigParts(body, [a]) == Member(body, a)
  {
    assert [a][1..] == [];
  }

  lemma ItemAt(xs: seq<Json>, n: nat)
    ensures ListItem(xs, Decimal(n)) == if n < |xs| then Some(xs[n]) else None
    ensures n > 0 ==> ListItem(xs, "-" + Decimal(n)) == if n <= |xs| then Some(xs[|xs| - n]) else None
    ensures '.' !in Decimal(n) && '.' !in "-" + Decimal(n)
  {
    IntegersRead(n, "0");
  }

  // ----- one predicate at a time -----

  /** Asking for a value, for one of a list of values, for a length, for a type: each of the value at the path. */
  lemma OneAsked(body: Json, path: string, v: Json, j: Json, js: seq<Json>, n: int, name: string)
    requires Dig(body, path) == Some(v)
    ensures Holds(body, At(path).(equals := Some(j))) <==> PyEqual(v, j)
    ensures Holds(body, At(path).(oneOf := Some(js))) <==> exists i | 0 <= i < |js| :: PyEqual(v, js[i])
    ensures Holds(body, At(path).(minLength := Some(n))) <==> Length(v).Some? && Length(v).value >= n
    ensures Holds(body, At(path).(maxLength := Some(n))) <==> Length(v).Some? && Length(v).value <= n
    ensures Holds(body, At(path).(typeName := Some(name))) <==> IsInstance(name, v)
  {
    EqualAsked(body, path, v, j);
    OneOfAsked(body, path, v, js);
    LengthAsked(body, path, v, n);
    TypeAsked(body, path, v, name);
  }

  lemma EqualAsked(body: Json, path: string, v: Json, j: Json)
    requires Dig(body, path) == Some(v)
    ensures Holds(body, At(path).(equals := Some(j))) <==> PyEqual(v, j)
  {
  }

  lemma OneOfAsked(body: Json, path: string, v: Json, js: seq<Json>)
    requires Dig(body, path) == Some(v)
    ensures Holds(body, At(path).(oneOf := Some(js))) <==> exists i | 0 <= i < |js| :: PyEqual(v, js[i])
  {
  }

  lemma LengthAsked(body: Json, path: string, v: Json, n: int)
    requires Dig(body, path) == Some(v)
    ensures Holds(body, At(path).(minLength := Some(n))) <==> Length(v).Some? && Length(v).value >= n
    ensures Holds(body, At(path).(maxLength := Some(n))) <==> Length(v).Some? && Length(v).value <= n
  {
  }

  lemma TypeAsked(body: Json, path: string, v: Json, name: string)
    requires Dig(body, path) == Some(v)
    ensures Holds(body, At(path).(typeName := Some(name))) <==> IsInstance(name, v)
  {
  }

  /** Nothing is true of a value that is not there. */
  lemma NothingThere(body: Json, e: Expectation)
    requires Dig(body, e.path) == None
    ensures !Holds(body, e) && !Raises(body, e)
  {
  }

  // ----- texts and lists -----

  function Texts(us: seq<string>): seq<Json> { seq(|us|, i requires 0 <= i < |us| => JStr(us[i])) }

  lemma OneOfTexts(t: string, us: seq<string>)
    ensures (exists i | 0 <= i < |us| :: PyEqual(JStr(t), Texts(us)[i])) <==> t in us
  {
    if t in us {
      var i :| 0 <= i < |us| && us[i] == t;
      assert PyEqual(JStr(t), Texts(us)[i]);
    }
  }

  /** The whole body, when it is a text. */
  lemma TextExpected(t: string, u: string, us: seq<string>, n: int)
    ensures Holds(JStr(t), At("").(equals := Some(JStr(u)))) <==> t == u
    ensures Holds(JStr(t), At("").(oneOf := Some(Texts(us)))) <==> t in us
    ensures Holds(JStr(t), At("").(minLength := Some(n))) <==> |t| >= n
    ensures Holds(JStr(t), At("").(maxLength := Some(n))) <==> |t| <= n
    ensures Holds(JStr(t), At("").(typeName := Some("string")))
    ensures !Holds(JStr(t), At("").(typeName := Some("integer")))
  {
    OneAsked(JStr(t), "", JStr(t), JStr(u), Texts(us), n, "string");
    OneAsked(JStr(t), "", JStr(t), JStr(u), Texts(us), n, "integer");
    OneOfTexts(t, us);
  }

  /** The whole body, when it is a list, such as that of a search. */
  lemma ListExpected(ds: seq<Device>, n: int)
    ensures Holds(DeviceList(ds), At("").(minLength := Some(n))) <==> |ds| >= n
    ensures Holds(DeviceList(ds), At("").(maxLength := Some(n))) <==> |ds| <= n
    ensures Holds(DeviceList(ds), At("").(typeName := Some("array")))
    ensures !Holds(DeviceList(ds), At("").(typeName := Some("object")))
  {
    OneAsked(DeviceList(ds), "", DeviceList(ds), JNull, [], n, "array");
    OneAsked(DeviceList(ds), "", DeviceList(ds), JNull, [], n, "object");
  }

  /** Only texts, lists and dictionaries have a length; asking it of anything else raises. */
  lemma OnlyThreeAreSized(v: Json, e: Expectation)
    requires e.path == "" && (e.maxLength.Some? || e.minLength.Some?)
    ensures Raises(v, e) <==> v.JNull? || v.JBool? || v.JInt? || v.JFloat?
  {
    assert Dig(v, e.path) == Some(v);
  }

  // ----- a device -----

  lemma DeviceDigs(d: Device)
    ensures Dig(DeviceJson(d), "id") == Some(JInt(d.id))
    ensures Dig(DeviceJson(d), "name") == Some(JStr(d.name))
    ensures Dig(DeviceJson(d), "status") == Some(JStr(StatusText(d.status)))
  {
    DigName(DeviceJson(d).m, "id");
    DigName(DeviceJson(d).m, "name");
    DigName(DeviceJson(d).m, "status");
  }

  /** What a case can expect of a device's id. */
  lemma IdExpected(d: Device, n: int, q: real, t: string)
    ensures Holds(DeviceJson(d), At("id").(equals := Some(JInt(n)))) <==> n == d.id
    ensures Holds(DeviceJson(d), At("id").(equals := Some(JFloat(q)))) <==> q == d.id as real
    ensures !Holds(DeviceJson(d), At("id").(equals := Some(JStr(t))))
  {
    DeviceDigs(d);
    EqualAsked(DeviceJson(d), "id", JInt(d.id), JInt(n));
    EqualAsked(DeviceJson(d), "id", JInt(d.id), JFloat(q));
    EqualAsked(DeviceJson(d), "id", JInt(d.id), JStr(t));
  }

  /** One of two values: a number that equals, or not at all. */
  lemma IdAmong(d: Device, n: int, t: string)
    ensures Holds(DeviceJson(d), At("id").(oneOf := Some([JInt(n), JStr(t)]))) <==> n == d.id
  {
    DeviceDigs(d);
    OneOfAsked(DeviceJson(d), "id", JInt(d.id), [JInt(n), JStr(t)]);
    NumberAmong(d.id, n, t);
  }

  lemma NumberAmong(k: int, n: int, t: string)
    ensures (exists i | 0 <= i < 2 :: PyEqual(JInt(k), [JInt(n), JStr(t)][i])) <==> n == k
  {
    assert [JInt(n), JStr(t)][0] == JInt(n) && [JInt(n), JStr(t)][1] == JStr(t);
  }

  /** An id is an integer, so no text, and has no length to ask for. */
  lemma IdIsAnInteger(d: Device, n: int)
    ensures Holds(DeviceJson(d), At("id").(typeName := Some("integer")))
    ensures !Holds(DeviceJson(d), At("id").(typeName := Some("string")))
    ensures Raises(DeviceJson(d), At("id").(minLength := Some(n)))
    ensures Raises(DeviceJson(d), At("id").(maxLength := Some(n)))
  {
    DeviceDigs(d);
    OneAsked(DeviceJson(d), "id", JInt(d.id), JNull, [], 0, "integer");
    OneAsked(DeviceJson(d), "id", JInt(d.id), JNull, [], 0, "string");
  }

  /** What a case can expect of a device's name. */
  lemma NameExpected(d: Device, t: string, us: seq<string>, n: int)
    ensures Holds(DeviceJson(d), At("name").(equals := Some(JStr(t)))) <==> t == d.name
    ensures Holds(DeviceJson(d), At("name").(oneOf := Some(Texts(us)))) <==> d.name in us
    ensures Holds(DeviceJson(d), At("name").(minLength := Some(n))) <==> |d.name| >= n
    ensures Holds(DeviceJson(d), At("name").(maxLength := Some(n))) <==> |d.name| <= n
    ensures Holds(DeviceJson(d), At("name").(typeName := Some("string")))
  {
    DeviceDigs(d);
    OneAsked(DeviceJson(d), "name", JStr(d.name), JStr(t), Texts(us), n, "string");
    OneOfTexts(d.name, us);
  }

  /** What a case can expect of a device's status. */
  lemma StatusExpected(d: Device)
    ensures Holds(DeviceJson(d), At("status").(equals := Some(JStr("online")))) <==> d.status == Online
    ensures Holds(DeviceJson(d), At("status").(equals := Some(JStr("offline")))) <==> d.status == Offline
    ensures Holds(DeviceJson(d), At("status").(equals := Some(JStr("degraded")))) <==> d.status == Degraded
    ensures Holds(DeviceJson(d), At("status").(oneOf := Some(Texts(["online", "offline", "degraded"]))))
  {
    DeviceDigs(d);
    var v, words := JStr(StatusText(d.status)), ["online", "offline", "degraded"];
    OneAsked(DeviceJson(d), "status", v, JStr("online"), Texts(words), 0, "string");
    OneAsked(DeviceJson(d), "status", v, JStr("offline"), Texts(words), 0, "string");
    OneAsked(DeviceJson(d), "status", v, JStr("degraded"), Texts(words), 0, "string");
    OneOfTexts(StatusText(d.status), words);
    assert words[0] == "online" && words[1] == "offline" && words[2] == "degraded";
  }

  /** A device as a whole has three members. */
  lemma WholeDeviceExpected(d: Device, n: int)
    ensures Holds(DeviceJson(d), At("").(minLength := Some(n))) <==> 3 >= n
    ensures Holds(DeviceJson(d), At("").(maxLength := Some(n))) <==> 3 <= n
    ensures Holds(DeviceJson(d), At("").(typeName := Some("object")))
  {
    LengthAsked(DeviceJson(d), "", DeviceJson(d), n);
    TypeAsked(DeviceJson(d), "", DeviceJson(d), "object");
    assert DeviceJson(d).m.Keys == {"id", "name", "status"};
  }

  /** A device has no other member. */
  lemma NothingElse(d: Device, e: Expectation)
    requires e.path != "" && '.' !in e.path && e.path !in {"id", "name", "status"}
    ensures !Holds(DeviceJson(d), e)
  {
    DigName(DeviceJson(d).m, e.path);
    NothingThere(DeviceJson(d), e);
  }

  // ----- a page -----

  /** What a case can expect of a page's numbers and of its list. */
  lemma PageExpected(ds: seq<Device>, total: int, limit: int, offset: int, n: int)
    ensures Holds(PageJson(ds, total, limit, offset), At("total").(equals := Some(JInt(n)))) <==> n == total
    ensures Holds(PageJson(ds, total, limit, offset), At("limit").(equals := Some(JInt(n)))) <==> n == limit
    ensures Holds(PageJson(ds, total, limit, offset), At("offset").(equals := Some(JInt(n)))) <==> n == offset
    ensures Holds(PageJson(ds, total, limit, offset), At("items").(minLength := Some(n))) <==> |ds| >= n
    ensures Holds(PageJson(ds, total, limit, offset), At("items").(maxLength := Some(n))) <==> |ds| <= n
  {
    var page := PageMembers(ds, total, limit, offset);
    NumberExpected(page, "total", total, n);
    NumberExpected(page, "limit", limit, n);
    NumberExpected(page, "offset", offset, n);
    CountExpected(page, "items", DeviceList(ds).items, n);
  }

  lemma PageMembers(ds: seq<Device>, total: int, limit: int, offset: int) returns (page: Json)
    ensures page == PageJson(ds, total, limit, offset) && page.JObj?
    ensures "items" in page.m && "total" in page.m && "limit" in page.m && "offset" in page.m
    ensures page.m["items"] == DeviceList(ds) && page.m["total"] == JInt(total)
    ensures page.m["limit"] == JInt(limit) && page.m["offset"] == JInt(offset)
  {
    page := PageJson(ds, total, limit, offset);
  }

  lemma NumberExpected(page: Json, name: string, k: int, n: int)
    requires page.JObj? && name != "" && '.' !in name && name in page.m && page.m[name] == JInt(k)
    ensures Holds(page, At(name).(equals := Some(JInt(n)))) <==> n == k
  {
    DigName(page.m, name);
    OneAsked(page, name, JInt(k), JInt(n), [], 0, "");
  }

  lemma CountExpected(page: Json, name: string, xs: seq<Json>, n: int)
    requires page.JObj? && name != "" && '.' !in name && name in page.m && page.m[name] == JArr(xs)
    ensures Holds(page, At(name).(minLength := Some(n))) <==> |xs| >= n
    ensures Holds(page, At(name).(maxLength := Some(n))) <==> |xs| <= n
  {
    DigName(page.m, name);
    OneAsked(page, name, JArr(xs), JNull, [], n, "");
  }

  /** A device of a page by its position from the front. */
  lemma ItemExpected(ds: seq<Device>, total: int, limit: int, offset: int, i: nat, t: string)
    ensures Holds(PageJson(ds, total, limit, offset), At("items." + Decimal(i) + ".name").(equals := Some(JStr(t))))
            <==> i < |ds| && ds[i].name == t
  {
    ItemAt(DeviceList(ds).items, i);
    NameOfItem(ds, total, limit, offset, Decimal(i), t);
  }

  /** And from the end: with a minus, counted from 1. */
  lemma LastItemExpected(ds: seq<Device>, total: int, limit: int, offset: int, i: nat, t: string, part: string)
    requires i > 0 && part == "-" + Decimal(i)
    ensures Holds(PageJson(ds, total, limit, offset), At("items." + part + ".name").(equals := Some(JStr(t))))
            <==> i <= |ds| && ds[|ds| - i].name == t
  {
    ItemAt(DeviceList(ds).items, i);
    NameOfItem(ds, total, limit, offset, part, t);
  }

  lemma NameOfItem(ds: seq<Device>, total: int, limit: int, offset: int, part: string, t: string)
    requires '.' !in part
    ensures Holds(PageJson(ds, total, limit, offset), At("items." + part + ".name").(equals := Some(JStr(t))))
            <==> ListItem(DeviceList(ds).items, part).Some?
                 && Member(ListItem(DeviceList(ds).items, part).value, "name") == Some(JStr(t))
  {
    var page, path := PageJson(ds, total, limit, offset), "items." + part + ".name";
    DigItem(page.m, "items", DeviceList(ds).items, part, "name");
    assert path == "items" + "." + part + "." + "name";
    var found := ListItem(DeviceList(ds).items, part);
    if found.Some? {
      var i :| 0 <= i < |ds| && found.value == DeviceJson(ds[i]);
      EqualAsked(page, path, JStr(ds[i].name), JStr(t));
    } else {
      NothingThere(page, At(path).(equals := Some(JStr(t))));
    }
  }

  // ----- what is reported -----

  function Place(path: string): string { if path == "" then "response.body" else "response.body." + path }

  function Unmet(body: Json, e: Expectation): nat { if Holds(body, e) then 0 else 1 }

  /**
    Each predicate that fails is reported once, at the path, as if it had been asked alone; a value
    that is not there is reported once.
   */
  lemma EachIsReported(body: Json, e: Expectation)
    requires !Raises(body, e)
    ensures forall v | v in AllFailures(body, [e]) :: v == Violation(ExpectationFailed, Place(e.path))
    ensures |AllFailures(body, [e])| ==
      if Dig(body, e.path) == None then 1
      else Unmet(body, At(e.path).(equals := e.equals)) + Unmet(body, At(e.path).(maxLength := e.maxLength))
           + Unmet(body, At(e.path).(minLength := e.minLength)) + Unmet(body, At(e.path).(oneOf := e.oneOf))
           + Unmet(body, At(e.path).(typeName := e.typeName))
  {
    AloneFails(body, e);
    if Dig(body, e.path).Some? {
      var v := Dig(body, e.path).value;
      CheckedCount(e, v);
      AskedAlone(body, e, v);
    }
  }

  lemma AloneFails(body: Json, e: Expectation)
    requires !Raises(body, e)
    ensures !AnyRaises(body, [e]) && AllFailures(body, [e]) == Failures([], body, e)
  {
    assert [e][..0] == [] && AllFailures(body, []) == [];
  }

  lemma CheckedCount(e: Expectation, v: Json)
    requires Sized(e, v)
    ensures forall f | f in Checked([], e, v) :: f == Failure(e)
    ensures |Checked([], e, v)|
            == (if EqualsHolds(e, v) then 0 else 1) + (if MaxHolds(e, v) then 0 else 1)
               + (if MinHolds(e, v) then 0 else 1) + (if OneOfHolds(e, v) then 0 else 1)
               + (if TypeHolds(e, v) then 0 else 1)
  {
  }

  lemma AskedAlone(body: Json, e: Expectation, v: Json)
    requires Dig(body, e.path) == Some(v) && Sized(e, v)
    ensures Unmet(body, At(e.path).(equals := e.equals)) == if EqualsHolds(e, v) then 0 else 1
    ensures Unmet(body, At(e.path).(maxLength := e.maxLength)) == if MaxHolds(e, v) then 0 else 1
    ensures Unmet(body, At(e.path).(minLength := e.minLength)) == if MinHolds(e, v) then 0 else 1
    ensures Unmet(body, At(e.path).(oneOf := e.oneOf)) == if OneOfHolds(e, v) then 0 else 1
    ensures Unmet(body, At(e.path).(typeName := e.typeName)) == if TypeHolds(e, v) then 0 else 1
  {
  }

  /** Expectations are reported one after another. */
  lemma {:induction false} ReportedInOrder(body: Json, es: seq<Expectation>, more: seq<Expectation>)
    requires !AnyRaises(body, es) && !AnyRaises(body, more) && !AnyRaises(body, es + more)
    ensures AllFailures(body, es + more) == AllFailures(body, es) + AllFailures(body, more)
    decreases |more|
  {
    if more == [] {
      assert es + more == es;
    } else {
      var init, e := more[..|more| - 1], more[|more| - 1];
      assert (es + more)[..|es + more| - 1] == es + init && (es + more)[|es + more| - 1] == e;
      ReportedInOrder(body, es, init);
      FailuresAppend(AllFailures(body, es), AllFailures(body, init), body, e);
    }
  }

  lemma FailuresAppend(a: seq<Violation>, b: seq<Violation>, body: Json, e: Expectation)
    requires !Raises(body, e)
    ensures Failures(a + b, body, e) == a + Failures(b, body, e)
  {
    match Dig(body, e.path)
    case None => Assoc(a, b, [Failure(e)]);
    case Some(v) => CheckedAppend(a, b, e, v);
  }

  lemma CheckedAppend(a: seq<Violation>, b: seq<Violation>, e: Expectation, v: Json)
    requires Sized(e, v)
    ensures Checked(a + b, e, v) == a + Checked(b, e, v)
  {
    var f := Failure(e);
    var c := FailAppend(a, b, EqualsHolds(e, v), f);
    c := FailAppend(a, c, MaxHolds(e, v), f);
    c := FailAppend(a, c, MinHolds(e, v), f);
    c := FailAppend(a, c, OneOfHolds(e, v), f);
    c := FailAppend(a, c, TypeHolds(e, v), f);
  }

  lemma FailAppend(a: seq<Violation>, b: seq<Violation>, holds: bool, f: Violation) returns (after: seq<Violation>)
    ensures after == FailUnless(b, holds, f) && FailUnless(a + b, holds, f) == a + after
  {
    after := FailUnless(b, holds, f);
    Assoc(a, b, [f]);
  }
}
