/**
 * The alert-status store: one entry per region, merged last-writer-wins by timestamp.
 */
module AlertStore {
  import opened Wrappers
  import opened Clock
  import Region

  /** The alert status of one region as of `updatedAt`; `isHistory` marks a placeholder time. */
  datatype Status = Status(region: Region.ID, enabled: bool, updatedAt: DateTime, isHistory: bool)

  /** The contents of the store: region ID to its latest status. */
  type Table = map<Region.ID, Status>

  /** Go's zero value `Status{}`. */
  const NoStatus := Status(Region.Invalid, false, Zero, false)

  /** The seed of every registered region: alert off, zero time, a placeholder. */
  function AssumedClear(id: Region.ID): Status {
    Status(id, false, Zero, true)
  }

  /** The hard-coded long-running alerts. */
  const CrimeaSeed := Status(Region.Crimea, true, DateTime(2022, 12, 11, 0, 22, 0), true)
  const LuhanskSeed := Status(Region.Luhansk, true, DateTime(2022, 4, 4, 19, 45, 0), true)

  /** Every entry is filed under its own region. */
  ghost predicate FiledByRegion(data: Table) {
    forall id | id in data :: data[id].region == id
  }

  /** Every registered region has an entry. */
  ghost predicate CoversRegistry(data: Table) {
    forall id | id in Region.NamesById :: id in data
  }

  /**
   * The effect of `set` with a status: the status replaces its region's entry unless it is
   * strictly older than that entry.
   */
  function Merge(data: Table, s: Status): (r: Table)
    ensures r.Keys == data.Keys + {s.region}
    ensures forall id | id in data && id != s.region :: r[id] == data[id]
    ensures r[s.region] == s || r == data
    ensures s.region in data ==> r[s.region].updatedAt == Latest(data[s.region].updatedAt, s.updatedAt)
  {
    if s.region in data && Before(s.updatedAt, data[s.region].updatedAt) then data
    else data[s.region := s]
  }

  /** A status strictly older than its region's entry changes nothing, not even `enabled` or `isHistory`. */
  lemma MergeDropsOlder(data: Table, s: Status)
    requires s.region in data && Before(s.updatedAt, data[s.region].updatedAt)
    ensures Merge(data, s) == data
  {
  }

  /** A status at least as new as its region's entry replaces it: ties overwrite. */
  lemma MergeReplacesNotOlder(data: Table, s: Status)
    requires s.region !in data || !Before(s.updatedAt, data[s.region].updatedAt)
    ensures Merge(data, s)[s.region] == s
  {
  }

  /** `Merge` keeps every entry filed under its own region. */
  lemma MergeKeepsFiling(data: Table, s: Status)
    requires FiledByRegion(data)
    ensures FiledByRegion(Merge(data, s))
    ensures CoversRegistry(data) ==> CoversRegistry(Merge(data, s))
  {
  }

  /** `set` applied to each status of `ss` in turn. */
  function MergeAll(data: Table, ss: seq<Status>): (r: Table)
    ensures r.Keys == data.Keys + set i | 0 <= i < |ss| :: ss[i].region
    decreases |ss|
  {
    if ss == [] then data
    else
      var r := MergeAll(Merge(data, ss[0]), ss[1..]);
      assert (set i | 0 <= i < |ss| :: ss[i].region) == {ss[0].region} + set i | 0 <= i < |ss[1..]| :: ss[1..][i].region;
      r
  }

  /** The timestamps of the statuses in `ss` that are for region `id`, in order. */
  function TimesFor(id: Region.ID, ss: seq<Status>): (ts: seq<DateTime>)
    decreases |ss|
  {
    if ss == [] then []
    else (if ss[0].region == id then [ss[0].updatedAt] else []) + TimesFor(id, ss[1..])
  }

  lemma {:induction false} TimesForMembers(id: Region.ID, ss: seq<Status>, t: DateTime)
    ensures t in TimesFor(id, ss) <==> exists s | s in ss :: s.region == id && s.updatedAt == t
    decreases |ss|
  {
    if ss != [] {
      TimesForMembers(id, ss[1..], t);
      if t in TimesFor(id, ss[1..]) {
        var s :| s in ss[1..] && s.region == id && s.updatedAt == t;
        assert s in ss;
      }
      assert forall s | s in ss :: s == ss[0] || s in ss[1..];
    }
  }

  /**
   * After any sequence of `set` calls, a region's stored time is the latest of its time
   * before and of every time submitted for it.
   */
  lemma {:induction false} MergeAllKeepsLatest(data: Table, ss: seq<Status>, id: Region.ID)
    requires id in data
    ensures MergeAll(data, ss)[id].updatedAt == LatestOf(data[id].updatedAt, TimesFor(id, ss))
    decreases |ss|
  {
    if ss != [] {
      var next := Merge(data, ss[0]);
      MergeAllKeepsLatest(next, ss[1..], id);
      if ss[0].region == id {
        assert TimesFor(id, ss) == [ss[0].updatedAt] + TimesFor(id, ss[1..]);
        assert ([ss[0].updatedAt] + TimesFor(id, ss[1..]))[1..] == TimesFor(id, ss[1..]);
      } else {
        assert TimesFor(id, ss) == TimesFor(id, ss[1..]);
      }
    }
  }

  /** The stored time after a batch of `set` calls does not depend on the order of the calls. */
  lemma MergeAllIgnoresOrder(data: Table, ss: seq<Status>, us: seq<Status>, id: Region.ID)
    requires id in data
    requires multiset(ss) == multiset(us)
    ensures MergeAll(data, ss)[id].updatedAt == MergeAll(data, us)[id].updatedAt
  {
    MergeAllKeepsLatest(data, ss, id);
    MergeAllKeepsLatest(data, us, id);
    forall t ensures t in TimesFor(id, ss) <==> t in TimesFor(id, us) {
      TimesForMembers(id, ss, t);
      TimesForMembers(id, us, t);
      assert forall s :: s in ss <==> s in multiset(ss);
      assert forall s :: s in us <==> s in multiset(us);
    }
    LatestOfIgnoresOrder(data[id].updatedAt, TimesFor(id, ss), TimesFor(id, us));
  }

  /** A stored time never moves backwards under `set`. */
  lemma {:induction false} MergeAllNeverRegresses(data: Table, ss: seq<Status>, id: Region.ID)
    requires id in data
    ensures id in MergeAll(data, ss)
    ensures !Before(MergeAll(data, ss)[id].updatedAt, data[id].updatedAt)
  {
    MergeAllKeepsLatest(data, ss, id);
    LatestOfIsMaximum(data[id].updatedAt, TimesFor(id, ss));
  }

  /** Every key of `table`, assumed clear. */
  function AllAssumedClear(table: map<Region.ID, string>): Table {
    map id | id in table :: AssumedClear(id)
  }

  /** Every registered region, assumed clear. */
  function Unknown(): Table {
    AllAssumedClear(Region.NamesById)
  }

  /** The state `newAlertData` builds: all regions assumed clear, then the two seeds. */
  function InitialData(): Table {
    Merge(Merge(Unknown(), CrimeaSeed), LuhanskSeed)
  }

  /** The seeds of IDs 1 through 27 are the seeds of the registry. */
  lemma AssumedClearByRange(data: Table)
    requires forall id :: id in data <==> 1 <= id <= 27
    requires forall k | k in data :: data[k] == AssumedClear(k)
    ensures data == Unknown()
  {
    Region.RangeRegistered();
    Region.RegisteredInRange();
    var u := Unknown();
    forall k ensures k in data <==> k in u {
      assert k in u <==> k in Region.NamesById;
    }
    assert data.Keys == u.Keys;
    assert forall k | k in data :: data[k] == u[k];
  }

  /** Seeding the next ID of an ascending run of assumed-clear entries extends the run by one. */
  lemma SeedStep(data: Table, id: Region.ID)
    requires 1 <= id
    requires forall k :: k in data <==> 1 <= k < id
    requires forall k | k in data :: data[k] == AssumedClear(k)
    ensures forall k :: k in Merge(data, AssumedClear(id)) <==> 1 <= k < id + 1
    ensures forall k | k in Merge(data, AssumedClear(id)) :: Merge(data, AssumedClear(id))[k] == AssumedClear(k)
  {
    var s := AssumedClear(id);
    assert s.region == id && id !in data;
    MergeReplacesNotOlder(data, s);
    var r := Merge(data, s);
    forall k ensures k in r <==> 1 <= k < id + 1 {
      assert k in r <==> k in data || k == id;
    }
    forall k | k in r ensures r[k] == AssumedClear(k) {
      if k != id {
        assert k in data && r[k] == data[k];
      }
    }
  }

  /** The statuses `newAlertData` submits while ranging over the registry in `order`. */
  function SeedsInOrder(order: seq<Region.ID>): seq<Status> {
    seq(|order|, i requires 0 <= i < |order| => AssumedClear(order[i]))
  }

  /**
   * Seeding all regions with `set`, in whatever order Go's map iteration takes, gives the
   * table of assumed-clear entries.
   */
  lemma SeedingIgnoresOrder(order: seq<Region.ID>)
    requires Region.IsOrderOf(order, Region.NamesById)
    ensures MergeAll(map[], SeedsInOrder(order)) == Unknown()
  {
    SeedingTableIgnoresOrder(Region.NamesById, order);
  }

  lemma SeedingTableIgnoresOrder(table: map<Region.ID, string>, order: seq<Region.ID>)
    requires Region.IsOrderOf(order, table)
    ensures MergeAll(map[], SeedsInOrder(order)) == AllAssumedClear(table)
  {
    SeedingKeys(table, order);
    SeedingValues(order);
    AllAssumedClearIs(MergeAll(map[], SeedsInOrder(order)), table);
  }

  /** The one table with the keys of `table` and every entry assumed clear. */
  lemma AllAssumedClearIs(r: Table, table: map<Region.ID, string>)
    requires r.Keys == table.Keys
    requires forall id | id in r :: r[id] == AssumedClear(id)
    ensures r == AllAssumedClear(table)
  {
    var u := AllAssumedClear(table);
    assert r.Keys == u.Keys;
    assert forall id | id in r :: r[id] == u[id];
  }

  lemma SeedingKeys(table: map<Region.ID, string>, order: seq<Region.ID>)
    requires Region.IsOrderOf(order, table)
    ensures MergeAll(map[], SeedsInOrder(order)).Keys == table.Keys
  {
    var ss := SeedsInOrder(order);
    var regions := set i | 0 <= i < |ss| :: ss[i].region;
    forall id | id in table
      ensures id in regions
    {
      var i :| 0 <= i < |order| && order[i] == id;
      assert ss[i].region == id;
    }
  }

  lemma SeedingValues(order: seq<Region.ID>)
    requires forall i, j | 0 <= i < j < |order| :: order[i] != order[j]
    ensures var r := MergeAll(map[], SeedsInOrder(order)); forall id | id in r :: r[id] == AssumedClear(id)
  {
    var ss := SeedsInOrder(order);
    var r := MergeAll(map[], ss);
    SeedAllDistinct(map[], ss, |ss|);
    forall id | id in r
      ensures r[id] == AssumedClear(id)
    {
      var i :| 0 <= i < |ss| && ss[i].region == id && r[id] == ss[i];
    }
  }

  /** Merging statuses for regions with no entry yet just files each of them. */
  lemma {:induction false} SeedAllDistinct(data: Table, ss: seq<Status>, n: nat)
    requires n == |ss|
    requires forall i | 0 <= i < |ss| :: ss[i].region !in data
    requires forall i, j | 0 <= i < j < |ss| :: ss[i].region != ss[j].region
    ensures forall id | id in MergeAll(data, ss) && id !in data :: exists i | 0 <= i < |ss| :: ss[i].region == id && MergeAll(data, ss)[id] == ss[i]
    ensures forall id | id in data :: MergeAll(data, ss)[id] == data[id]
    decreases n
  {
    if ss != [] {
      var next := Merge(data, ss[0]);
      SeedAllDistinct(next, ss[1..], n - 1);
      var r := MergeAll(data, ss);
      forall id | id in r && id !in data
        ensures exists i | 0 <= i < |ss| :: ss[i].region == id && r[id] == ss[i]
      {
        if id == ss[0].region {
          assert r[id] == next[id] == ss[0];
        } else {
          var i :| 0 <= i < |ss[1..]| && ss[1..][i].region == id && r[id] == ss[1..][i];
          assert ss[i + 1].region == id && r[id] == ss[i + 1];
        }
      }
    }
  }

  /** After construction every registered region has an entry filed under it, and nothing else. */
  lemma InitialDataCoversRegistry()
    ensures InitialData().Keys == Region.NamesById.Keys
    ensures FiledByRegion(InitialData()) && CoversRegistry(InitialData())
  {
    assert Region.Crimea in Region.NamesById && Region.Luhansk in Region.NamesById;
    MergeKeepsFiling(Unknown(), CrimeaSeed);
    MergeKeepsFiling(Merge(Unknown(), CrimeaSeed), LuhanskSeed);
  }

  /** The two seeds win over the zero-time placeholders, because they are later. */
  lemma InitialDataSeeds()
    ensures InitialData()[Region.Crimea] == CrimeaSeed
    ensures InitialData()[Region.Luhansk] == LuhanskSeed
  {
    assert Region.Crimea in Region.NamesById && Region.Luhansk in Region.NamesById;
  }

  /** Every other registered region starts assumed clear. */
  lemma InitialDataOthers(id: Region.ID)
    requires id in Region.NamesById && id != Region.Crimea && id != Region.Luhansk
    ensures InitialData()[id] == AssumedClear(id)
  {
  }

  /** After construction `GetByRegion` succeeds for every registered region and fails for `Invalid`. */
  lemma InitialLookups(store: AlertData)
    requires store.data == InitialData()
    ensures forall id | id in Region.NamesById :: store.GetByRegion(id).Ok() && store.GetByRegion(id).value.region == id
    ensures store.GetByRegion(Region.Invalid) == Result(NoStatus, Some(InvalidRegion(Region.Invalid)))
  {
    InitialDataCoversRegistry();
    Region.InvalidUnregistered();
  }

  /** The state store (Go: `AlertData`); the lock is not modelled. */
  class AlertData {
    var data: Table

    ghost predicate Valid()
      reads this
    {
      FiledByRegion(data) && CoversRegistry(data)
    }

    /** `newAlertData`. Go ranges over the registry in an unspecified order; see `SeedingIgnoresOrder`. */
    constructor()
      ensures Valid() && data == InitialData()
    {
      data := map[];
      new;
      SeedRegistry();
      AssumedClearByRange(data);
      Set(Some(CrimeaSeed));
      Set(Some(LuhanskSeed));
      InitialDataCoversRegistry();
    }

    /** The loop of `newAlertData` over the registry (IDs 1 through 27, ascending), on an empty store. */
    method SeedRegistry()
      requires data == map[]
      modifies this
      ensures forall id :: id in data <==> 1 <= id <= 27
      ensures forall id | id in data :: data[id] == AssumedClear(id)
    {
      for id := 1 to 28
        invariant forall k :: k in data <==> 1 <= k < id
        invariant forall k | k in data :: data[k] == AssumedClear(k)
      {
        ghost var before := data;
        Set(Some(AssumedClear(id)));
        SeedStep(before, id);
      }
    }

    /** `GetByRegion`: the entry of a region, or the zero status and an error when it has none. */
    function GetByRegion(id: Region.ID): (r: Result<Status>)
      reads this
      ensures r.Ok() <==> id in data
      ensures r.Ok() ==> r.value == data[id]
      ensures !r.Ok() ==> r == Result(NoStatus, Some(InvalidRegion(id)))
      ensures Valid() && id in Region.NamesById ==> r.Ok() && r.value.region == id
    {
      if id in data then Result(data[id], None) else Result(NoStatus, Some(InvalidRegion(id)))
    }

    /** `set`: nothing for a nil status; otherwise the monotonic merge. */
    method Set(newStatus: Option<Status>)
      modifies this
      ensures newStatus.None? ==> data == old(data)
      ensures newStatus.Some? ==> data == Merge(old(data), newStatus.value)
      ensures old(Valid()) ==> Valid()
    {
      if newStatus.None? {
        return;
      }
      var s := newStatus.value;
      if s.region in data && Before(s.updatedAt, data[s.region].updatedAt) {
        return;
      }
      data := data[s.region := s];
    }
  }
}
