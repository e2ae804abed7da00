/** The device registry: api/store.py. */
module Store {
  import opened Json

  datatype Status = Online | Offline | Degraded

  datatype Device = Device(id: int, name: string, status: Status)

  /** `_DEVICES` and `_next_id`. */
  datatype Store = Store(devices: map<int, Device>, nextId: int)

  /** The seeded state that `reset` restores. */
  function Seeded(): Store {
    Store(map[1 := Device(1, "edge-router-01", Online),
              2 := Device(2, "edge-router-02", Offline),
              3 := Device(3, "sensor-gateway-01", Degraded)], 4)
  }

  // ----- reading -----

  predicate Ascending(ids: seq<int>) { forall i, j | 0 <= i < j < |ids| :: ids[i] < ids[j] }

  predicate IsLeast(least: int, ids: set<int>) { least in ids && forall x | x in ids :: least <= x }

  lemma Pick<T>(s: set<T>) returns (x: T)
    requires s != {}
    ensures x in s
  {
    x :| x in s;
  }

  lemma {:induction false} HasLeast(ids: set<int>)
    requires ids != {}
    ensures exists least :: IsLeast(least, ids)
    decreases |ids|
  {
    var x := Pick(ids);
    var rest := ids - {x};
    if rest == {} {
      assert ids == {x};
      assert IsLeast(x, ids);
    } else {
      HasLeast(rest);
      var l :| IsLeast(l, rest);
      assert forall y | y in ids :: y == x || y in rest;
      assert IsLeast(if x < l then x else l, ids);
    }
  }

  /** `sorted(ids)`. */
  function Sorted(ids: set<int>): (sorted: seq<int>)
    ensures Ascending(sorted) && |sorted| == |ids|
    ensures forall x :: x in sorted <==> x in ids
    decreases |ids|
  {
    if |ids| == 0 then []
    else
      HasLeast(ids);
      var least :| IsLeast(least, ids);
      var rest := Sorted(ids - {least});
      assert forall x | x in rest :: least < x;
      [least] + rest
  }

  function DevicesOf(store: Store, ids: seq<int>): (ds: seq<Device>)
    requires forall i | 0 <= i < |ids| :: ids[i] in store.devices
    ensures |ds| == |ids| && forall i | 0 <= i < |ids| :: ds[i] == store.devices[ids[i]]
  {
    if ids == [] then [] else [store.devices[ids[0]]] + DevicesOf(store, ids[1..])
  }

  /** `list_devices`: every device, by id. */
  function ListDevices(store: Store): (ds: seq<Device>)
    ensures |ds| == |store.devices|
  {
    DevicesOf(store, Sorted(store.devices.Keys))
  }

  predicate NameTaken(store: Store, name: string) {
    exists id | id in store.devices :: store.devices[id].name == name
  }

  /** `xs[offset : offset + limit]`, as Python slices: past the end it is empty. */
  function Slice<T>(xs: seq<T>, offset: nat, limit: nat): seq<T> {
    if offset >= |xs| then []
    else if offset + limit >= |xs| then xs[offset..]
    else xs[offset..offset + limit]
  }

  /** `page_devices`. */
  function PageDevices(store: Store, limit: nat, offset: nat): (seq<Device>, nat) {
    (Slice(ListDevices(store), offset, limit), |ListDevices(store)|)
  }

  function Select(ds: seq<Device>, keep: Device -> bool): seq<Device> {
    if ds == [] then []
    else (if keep(ds[0]) then [ds[0]] else []) + Select(ds[1..], keep)
  }

  lemma {:induction false} SelectIsFilter(ds: seq<Device>, keep: Device -> bool)
    ensures forall d :: d in Select(ds, keep) <==> d in ds && keep(d)
    ensures SortedById(ds) ==> SortedById(Select(ds, keep))
  {
    if ds != [] {
      SelectIsFilter(ds[1..], keep);
      var rest := Select(ds[1..], keep);
      if SortedById(ds) {
        assert SortedById(ds[1..]);
        forall d | d in rest ensures ds[0].id < d.id {
          var i :| 0 <= i < |ds[1..]| && ds[1..][i] == d;
          assert ds[i + 1] == d;
        }
      }
    }
  }

  /** `_LEGAL_TRANSITIONS`, and staying put. */
  predicate IsLegalTransition(from: Status, to: Status) {
    || from == to
    || match from
       case Offline => to == Online
       case Online => to == Degraded || to == Offline
       case Degraded => to == Online || to == Offline
  }

  // ----- writing -----

  function Created(store: Store, name: string, status: Status): Store {
    Store(store.devices[store.nextId := Device(store.nextId, name, status)], store.nextId + 1)
  }

  function Replaced(store: Store, id: int, name: string, status: Status): Store {
    if id in store.devices then store.(devices := store.devices[id := Device(id, name, status)]) else store
  }

  function Deleted(store: Store, id: int): Store { store.(devices := store.devices - {id}) }

  function StatusSet(store: Store, id: int, status: Status): Store {
    if id in store.devices
    then store.(devices := store.devices[id := Device(store.devices[id].id, store.devices[id].name, status)])
    else store
  }

  /** The module as an object: its two globals, changed in place. */
  class Registry {
    var devices: map<int, Device>
    var nextId: int

    function Model(): Store
      reads this
    {
      Store(devices, nextId)
    }

    constructor ()
      ensures Model() == Seeded()
    {
      devices, nextId := Seeded().devices, Seeded().nextId;
    }

    method Reset()
      modifies this
      ensures Model() == Seeded()
    {
      devices := map[];
      var seed := [Device(1, "edge-router-01", Online), Device(2, "edge-router-02", Offline),
                   Device(3, "sensor-gateway-01", Degraded)];
      var highest := 0;
      for i := 0 to |seed|
        invariant devices.Keys == set j | 0 <= j < i :: seed[j].id
        invariant forall j | 0 <= j < i :: devices[seed[j].id] == seed[j]
        invariant highest == i
      {
        devices := devices[seed[i].id := seed[i]];
        highest := if seed[i].id > highest then seed[i].id else highest;
      }
      nextId := highest + 1;
      assert seed[0].id in devices && seed[1].id in devices && seed[2].id in devices;
      assert devices == Seeded().devices;
    }

    method CreateDevice(name: string, status: Status) returns (device: Device)
      modifies this
      ensures Model() == Created(old(Model()), name, status)
      ensures device == Device(old(nextId), name, status)
    {
      device := Device(nextId, name, status);
      devices := devices[device.id := device];
      nextId := nextId + 1;
    }

    method ReplaceDevice(id: int, name: string, status: Status) returns (device: Option<Device>)
      modifies this
      ensures Model() == Replaced(old(Model()), id, name, status)
      ensures device == if id in old(devices) then Some(Device(id, name, status)) else None
    {
      if id !in devices {
        return None;
      }
      device := Some(Device(id, name, status));
      devices := devices[id := device.value];
    }

    method DeleteDevice(id: int) returns (existed: bool)
      modifies this
      ensures Model() == Deleted(old(Model()), id)
      ensures existed <==> id in old(devices)
    {
      existed := id in devices;
      devices := devices - {id};
    }

    method SetStatus(id: int, status: Status) returns (device: Option<Device>)
      modifies this
      ensures Model() == StatusSet(old(Model()), id, status)
      ensures device == if id in old(devices) then Some(devices[id]) else None
    {
      if id !in devices {
        return None;
      }
      var updated := Device(devices[id].id, devices[id].name, status);
      devices := devices[id := updated];
      device := Some(updated);
    }

    /** `page_devices`: Python cuts both ends of a slice back to the list. */
    method Page(limit: nat, offset: nat) returns (items: seq<Device>, total: nat)
      ensures (items, total) == PageDevices(Model(), limit, offset)
    {
      var all := ListDevices(Model());
      var first := if offset < |all| then offset else |all|;
      var last := if offset + limit < |all| then offset + limit else |all|;
      SliceIsRange(all, offset, limit, first, last);
      items, total := all[first..last], |all|;
    }
  }

  lemma SliceIsRange<T>(xs: seq<T>, offset: nat, limit: nat, first: nat, last: nat)
    requires first == (if offset < |xs| then offset else |xs|)
    requires last == if offset + limit < |xs| then offset + limit else |xs|
    ensures Slice(xs, offset, limit) == xs[first..last]
  {
  }

  // ----- what the writes keep -----

  /** Keys are the devices' own ids, and all of them have been issued. */
  predicate Consistent(store: Store) {
    && store.nextId >= 1
    && forall id | id in store.devices :: store.devices[id].id == id && 1 <= id < store.nextId
  }

  predicate DistinctNames(store: Store) {
    forall a, b | a in store.devices && b in store.devices && a != b ::
      store.devices[a].name != store.devices[b].name
  }

  /** Names are between 1 and 64 characters long. */
  predicate NamesFit(store: Store) {
    forall id | id in store.devices :: 1 <= |store.devices[id].name| <= 64
  }

  // ----- pages -----

  /** The pages at offset, offset + limit, and so on below the total, one after another. */
  function PagesFrom<T>(page: nat -> seq<T>, total: nat, limit: nat, offset: nat): seq<T>
    requires limit >= 1
    decreases total - offset
  {
    if offset >= total then [] else page(offset) + PagesFrom(page, total, limit, offset + limit)
  }

  function AllPages(store: Store, limit: nat): seq<Device>
    requires limit >= 1
  {
    PagesFrom(o => PageDevices(store, limit, o).0, |store.devices|, limit, 0)
  }

  function PageCount(total: nat, limit: nat, offset: nat): nat
    requires limit >= 1
    decreases total - offset
  {
    if offset >= total then 0 else 1 + PageCount(total, limit, offset + limit)
  }

  lemma {:induction false} PagesAreTheRest<T>(xs: seq<T>, page: nat -> seq<T>, limit: nat, offset: nat)
    requires limit >= 1 && forall o: nat :: page(o) == Slice(xs, o, limit)
    ensures PagesFrom(page, |xs|, limit, offset) == if offset >= |xs| then [] else xs[offset..]
    decreases |xs| - offset
  {
    if offset < |xs| {
      PagesAreTheRest(xs, page, limit, offset + limit);
      SliceAndRest(xs, offset, limit, PagesFrom(page, |xs|, limit, offset + limit));
    }
  }

  lemma SliceIsShort<T>(xs: seq<T>, offset: nat, limit: nat)
    ensures |Slice(xs, offset, limit)| <= limit
  {
  }

  lemma SliceAndRest<T>(xs: seq<T>, offset: nat, limit: nat, rest: seq<T>)
    requires offset < |xs| && rest == if offset + limit >= |xs| then [] else xs[offset + limit..]
    ensures Slice(xs, offset, limit) + rest == xs[offset..]
  {
  }

  /** n pages are enough, and n - 1 are not. */
  lemma {:induction false} PageCountIsCeiling(total: nat, limit: nat, offset: nat)
    requires limit >= 1 && offset < total
    ensures var n := PageCount(total, limit, offset); (n - 1) * limit < total - offset <= n * limit
    decreases total - offset
  {
    if offset + limit < total {
      PageCountIsCeiling(total, limit, offset + limit);
      var n := PageCount(total, limit, offset + limit);
      assert (n + 1) * limit == n * limit + limit && n * limit == (n - 1) * limit + limit;
    } else {
      assert PageCount(total, limit, offset) == 1 + PageCount(total, limit, offset + limit) == 1;
    }
  }

  /**
    The pages at 0, limit, 2 * limit, ... put together are the whole registry, each device once and
    in order of id; every page reports the true total, and there are as few as limit allows.
   */
  lemma PagesPartition(store: Store, limit: nat, offset: nat)
    requires limit >= 1 && Consistent(store)
    ensures AllPages(store, limit) == ListDevices(store)
    ensures PageDevices(store, limit, offset).1 == |store.devices|
    ensures |PageDevices(store, limit, offset).0| <= limit
    ensures SortedById(ListDevices(store)) && HoldsExactly(ListDevices(store), store)
    ensures FewestPages(|store.devices|, limit)
  {
    SliceIsShort(ListDevices(store), offset, limit);
    PagesAreTheRest(ListDevices(store), o => PageDevices(store, limit, o).0, limit, 0);
    assert ListDevices(store)[0..] == ListDevices(store);
    ListIsSorted(store);
    PagesAreFewest(|store.devices|, limit);
  }

  lemma PagesAreFewest(total: nat, limit: nat)
    requires limit >= 1
    ensures FewestPages(total, limit)
  {
    if total > 0 { PageCountIsCeiling(total, limit, 0); }
  }

  predicate SortedById(ds: seq<Device>) { forall i, j | 0 <= i < j < |ds| :: ds[i].id < ds[j].id }

  ghost predicate HoldsExactly(ds: seq<Device>, store: Store) {
    forall d :: d in ds <==> d.id in store.devices && store.devices[d.id] == d
  }

  /** The number of pages is total / limit, rounded up. */
  predicate FewestPages(total: nat, limit: nat)
    requires limit >= 1
  {
    var n := PageCount(total, limit, 0);
    if total == 0 then n == 0 else (n - 1) * limit < total <= n * limit
  }

  lemma ListIsSorted(store: Store)
    requires Consistent(store)
    ensures SortedById(ListDevices(store)) && HoldsExactly(ListDevices(store), store)
  {
    var ids, ds := Sorted(store.devices.Keys), ListDevices(store);
    forall i | 0 <= i < |ids| ensures ds[i].id == ids[i] && ds[i] == store.devices[ids[i]] {
      assert ids[i] in ids;
    }
    forall d ensures d in ds <==> d.id in store.devices && store.devices[d.id] == d {
      ListedOnce(store, ids, ds, d);
    }
  }

  lemma ListedOnce(store: Store, ids: seq<int>, ds: seq<Device>, d: Device)
    requires |ids| == |ds| && forall x :: x in ids <==> x in store.devices
    requires forall i | 0 <= i < |ids| ::
      ids[i] in store.devices && ds[i].id == ids[i] && ds[i] == store.devices[ids[i]]
    ensures d in ds <==> d.id in store.devices && store.devices[d.id] == d
  {
    if d.id in store.devices && store.devices[d.id] == d {
      assert d.id in ids;
      var i :| 0 <= i < |ids| && ids[i] == d.id;
      assert ds[i] == d;
    }
  }
}
