/** Snapshot, save, load and redistribute: what a restart with another number of shards brings back. */
module Recovery {
  import opened Common
  import opened Crc64
  import opened PrimeValues
  import opened Databases
  import opened DbSlices
  import opened KeyOps
  import opened RdbFormat
  import opened RdbFiles
  import opened RdbLoaders
  import opened Scatter
  import opened ShardRuns
  import opened ShardSystem
  import opened ShardTasks
  import opened Snapshots

  // ---- Taking the snapshot ----

  /** One entry of a database as the snapshot lists it; keys past their deadline are listed too. */
  function SnapOf(db: Db, i: nat, k: bytes): RdbEntry
    requires k in db.prime
  {
    RdbEntry(i, k, db.prime[k], DeadlineOf(db, k))
  }

  predicate Taken(x: RdbEntry, dbs: seq<Db>)
    requires |dbs| == 16
  {
    x.db < 16 && x.key in dbs[x.db].prime && x == SnapOf(dbs[x.db], x.db, x.key)
  }

  predicate Listed(items: seq<RdbEntry>, dbs: seq<Db>, i: nat, k: bytes)
    requires |dbs| == 16
  {
    i < 16 && k in dbs[i].prime ==> SnapOf(dbs[i], i, k) in items
  }

  /** The snapshot lists exactly what the databases hold. */
  ghost predicate Lists(items: seq<RdbEntry>, dbs: seq<Db>)
    requires |dbs| == 16
  {
    (forall x :: x in items ==> Taken(x, dbs)) && forall i: nat, k :: Listed(items, dbs, i, k)
  }

  /** The same for the databases before `d` and the keys of database `d` met so far. */
  ghost predicate ListsSoFar(items: seq<RdbEntry>, dbs: seq<Db>, d: nat, seen: seq<bytes>)
    requires |dbs| == 16
  {
    && (forall x :: x in items ==> Taken(x, dbs))
    && (forall i: nat, k :: i < d || (i == d && k in seen) ==> Listed(items, dbs, i, k))
  }

  /** The number of entries in a list of tables. */
  function Entries<T>(tables: seq<seq<T>>): nat { if tables == [] then 0 else |tables[0]| + Entries(tables[1..]) }

  /** `orders` gives the order in which each table is iterated. */
  method CollectSnapshot(s: DbSlice, orders: seq<seq<bytes>>) returns (items: seq<RdbEntry>)
    requires s.Valid() && |orders| == 16 && forall i :: 0 <= i < 16 ==> Enumerates(orders[i], s.dbs[i].prime.Keys)
    ensures Lists(items, s.dbs) && |items| == Entries(orders)
  {
    hide Lists, ListsSoFar;
    items := [];
    NoneListed(s.dbs);
    assert orders[0..] == orders;
    for d := 0 to 16
      invariant ListsSoFar(items, s.dbs, d, []) && |items| + Entries(orders[d..]) == Entries(orders)
    {
      assert orders[d..][1..] == orders[d + 1..];
      ghost var n := |items|;
      for j := 0 to |orders[d]|
        invariant ListsSoFar(items, s.dbs, d, orders[d][..j]) && |items| == n + j
      {
        var k := orders[d][j];
        assert k in orders[d] && k in s.dbs[d].prime.Keys;
        ListMore(items, s.dbs, d, orders[d][..j], k);
        items := items + [SnapOf(s.dbs[d], d, k)];
        assert orders[d][..j + 1] == orders[d][..j] + [k];
      }
      assert orders[d][..|orders[d]|] == orders[d];
      ListNext(items, s.dbs, d, orders[d]);
    }
    ListAll(items, s.dbs);
  }

  lemma NoneListed(dbs: seq<Db>)
    requires |dbs| == 16
    ensures ListsSoFar([], dbs, 0, [])
  {}

  lemma ListMore(items: seq<RdbEntry>, dbs: seq<Db>, d: nat, seen: seq<bytes>, k: bytes)
    requires |dbs| == 16 && d < 16 && k in dbs[d].prime && ListsSoFar(items, dbs, d, seen)
    ensures ListsSoFar(items + [SnapOf(dbs[d], d, k)], dbs, d, seen + [k])
  {
    var more := items + [SnapOf(dbs[d], d, k)];
    forall i: nat, l | i < d || (i == d && l in seen + [k])
      ensures Listed(more, dbs, i, l)
    {
      if i == d && l == k {
      } else {
        assert Listed(items, dbs, i, l);
      }
    }
    assert Taken(SnapOf(dbs[d], d, k), dbs);
  }

  lemma ListNext(items: seq<RdbEntry>, dbs: seq<Db>, d: nat, seen: seq<bytes>)
    requires |dbs| == 16 && d < 16 && ListsSoFar(items, dbs, d, seen) && Enumerates(seen, dbs[d].prime.Keys)
    ensures ListsSoFar(items, dbs, d + 1, [])
  {
    forall i: nat, k | i < d + 1
      ensures Listed(items, dbs, i, k)
    {
      if i == d && k in dbs[d].prime {
        assert k in dbs[d].prime.Keys && k in seen;
      }
    }
  }

  lemma ListAll(items: seq<RdbEntry>, dbs: seq<Db>)
    requires |dbs| == 16 && ListsSoFar(items, dbs, 16, [])
    ensures Lists(items, dbs)
  {
    forall i: nat, k
      ensures Listed(items, dbs, i, k)
    {
      if i < 16 {}
    }
  }

  // ---- Loading ----

  predicate Lapsed(e: RdbEntry, now: Time) { e.expire.Some? && e.expire.value <= now }

  function LoadOne(dbs: seq<Db>, e: RdbEntry, now: Time): (r: seq<Db>)
    requires |dbs| == 16 && e.db < 16
    ensures |r| == 16
  {
    if Lapsed(e, now) then dbs
    else
      var db := Put(dbs[e.db], e.key, e.value);
      dbs[e.db := if e.expire.Some? then SetDeadline(db, e.key, e.expire.value) else db]
  }

  function LoadEach(dbs: seq<Db>, es: seq<RdbEntry>, now: Time): (r: seq<Db>)
    requires |dbs| == 16 && InRange(es)
    ensures |r| == 16
  {
    if es == [] then dbs else LoadOne(LoadEach(dbs, es[..|es| - 1], now), es[|es| - 1], now)
  }

  /** `load_entries` of a shard: entries past their deadline are not stored. */
  method LoadShard(s: DbSlice, es: seq<RdbEntry>, now: Time)
    requires s.Valid() && InRange(es)
    modifies s
    ensures s.Valid() && s.dbs == LoadEach(old(s.dbs), es, now)
  {
    hide Put, SetDeadline;
    s.UpdateTime(now);
    for j := 0 to |es|
      invariant s.Valid() && s.dbs == LoadEach(old(s.dbs), es[..j], now)
    {
      var e := es[j];
      assert es[..j + 1][..j] == es[..j] && es[..j + 1][j] == e;
      ghost var was := s.dbs;
      if e.expire.Some? && e.expire.value <= now {
        assert s.dbs == LoadOne(was, e, now);
        continue;
      }
      var _ := s.AddOrUpdate(e.db, e.key, e.value);
      if e.expire.Some? {
        s.AddExpire(e.db, e.key, e.expire.value);
      }
      assert s.dbs == LoadOne(was, e, now);
    }
    assert es[..|es|] == es;
  }

  function EntriesFor(es: seq<RdbEntry>, route: bytes -> nat, s: nat): seq<RdbEntry> {
    if es == [] then []
    else EntriesFor(es[..|es| - 1], route, s) + if route(es[|es| - 1].key) == s then [es[|es| - 1]] else []
  }

  /** Every loaded entry is pushed to the list of its shard. */
  method Distribute(es: seq<RdbEntry>, route: bytes -> nat, m: nat) returns (lists: seq<seq<RdbEntry>>)
    requires Total(route, m)
    ensures |lists| == m && forall s :: 0 <= s < m ==> lists[s] == EntriesFor(es, route, s)
  {
    lists := seq(m, s => []);
    for j := 0 to |es|
      invariant |lists| == m && forall s :: 0 <= s < m ==> lists[s] == EntriesFor(es[..j], route, s)
    {
      var sid := route(es[j].key);
      assert es[..j + 1][..j] == es[..j] && es[..j + 1][j] == es[j];
      lists := lists[sid := lists[sid] + [es[j]]];
    }
    assert es[..|es|] == es;
  }

  // ---- What loading stores ----

  /** Entries for the same database and key are the same. */
  ghost predicate Functional(es: seq<RdbEntry>) {
    forall a, b :: 0 <= a < b < |es| && es[a].db == es[b].db && es[a].key == es[b].key ==> es[a] == es[b]
  }

  /** The last entry for a key of a database. */
  function LastFor(es: seq<RdbEntry>, i: nat, k: bytes): (r: Option<RdbEntry>)
    ensures r.Some? ==> r.value in es && r.value.db == i && r.value.key == k
    ensures r.None? ==> forall e :: e in es ==> e.db != i || e.key != k
  {
    if es == [] then None
    else
      var e := es[|es| - 1];
      assert es == es[..|es| - 1] + [e];
      if e.db == i && e.key == k then Some(e) else LastFor(es[..|es| - 1], i, k)
  }

  function CellFor(e: Option<RdbEntry>, now: Time): Cell {
    if e.Some? && !Lapsed(e.value, now) then Cell(Some(e.value.value), e.value.expire) else NOTHING
  }

  lemma LoadOneCell(dbs: seq<Db>, e: RdbEntry, now: Time, i: nat, k: bytes)
    requires |dbs| == 16 && e.db < 16 && i < 16
    ensures CellOf(LoadOne(dbs, e, now)[i], k) ==
            if Lapsed(e, now) || e.db != i || e.key != k then CellOf(dbs[i], k)
            else Cell(Some(e.value), if e.expire.Some? then e.expire else CellOf(dbs[i], k).deadline)
  {}

  /** On a well-formed database loading an entry is the step that the server runs for it. */
  lemma LoadIsStep(db: Db, e: RdbEntry, now: Time)
    requires WellFormed(db)
    ensures Perform(db, Single(e.key, LoadEffect(e)), now) ==
            if Lapsed(e, now) then db
            else if e.expire.Some? then SetDeadline(Put(db, e.key, e.value), e.key, e.expire.value)
            else Put(db, e.key, e.value)
  {
    var after := Perform(db, Single(e.key, LoadEffect(e)), now);
    if Lapsed(e, now) {
      assert after.prime == db.prime && after.expire == db.expire;
    } else if e.expire.None? {
      assert after.expire == db.expire;
    }
  }

  lemma {:induction false} LoadedCell(es: seq<RdbEntry>, now: Time, i: nat, k: bytes)
    requires InRange(es) && Functional(es) && i < 16
    ensures CellOf(LoadEach(EMPTY_ROW, es, now)[i], k) == CellFor(LastFor(es, i, k), now)
    decreases |es|
  {
    hide LoadOne, CellOf;
    if es == [] {
      EmptyCell(i, k);
    } else {
      var n := |es| - 1;
      var e, front := es[n], es[..n];
      LoadedCell(front, now, i, k);
      LoadOneCell(LoadEach(EMPTY_ROW, front, now), e, now, i, k);
      if e.db == i && e.key == k && LastFor(front, i, k).Some? {
        var e' := LastFor(front, i, k).value;
        var a :| 0 <= a < n && es[a] == e';
        assert e' == e;
      }
    }
  }

  lemma EmptyCell(i: nat, k: bytes)
    requires i < 16
    ensures CellOf(EMPTY_ROW[i], k) == NOTHING
  {}

  lemma {:induction false} EntriesForMembers(es: seq<RdbEntry>, route: bytes -> nat, s: nat)
    ensures forall e :: e in EntriesFor(es, route, s) <==> e in es && route(e.key) == s
  {
    if es != [] {
      var n := |es| - 1;
      EntriesForMembers(es[..n], route, s);
      assert es == es[..n] + [es[n]];
    }
  }

  // ---- From the file to the entries ----

  lemma {:induction false} InDbMembers(items: seq<RdbEntry>, d: nat)
    ensures forall x :: x in InDb(items, d) <==> x in items && x.db == d
  {
    if items != [] {
      InDbMembers(items[1..], d);
      assert items == [items[0]] + items[1..];
    }
  }

  lemma {:induction false} LoadedItemsMembers(items: seq<RdbEntry>)
    ensures forall x :: x in items && IsString(x.value) ==> Loaded(x) in LoadedItems(items)
    ensures forall e :: e in LoadedItems(items) ==> Comes(e, items)
  {
    hide Loaded;
    if items != [] {
      LoadedItemsMembers(items[1..]);
      assert items == [items[0]] + items[1..];
      forall e | e in LoadedItems(items)
        ensures Comes(e, items)
      {
        if e in LoadedItems(items[1..]) {
          var x :| x in items[1..] && IsString(x.value) && e == Loaded(x);
          assert x in items;
        } else {
          assert e == Loaded(items[0]);
        }
      }
    }
  }

  ghost predicate Comes(e: RdbEntry, items: seq<RdbEntry>) { exists x :: x in items && IsString(x.value) && e == Loaded(x) }

  lemma {:induction false} LoadedIn(items: seq<RdbEntry>, d: nat, x: RdbEntry)
    requires x in items && IsString(x.value) && d <= x.db < 16
    ensures Loaded(x) in LoadedSections(items, d)
    decreases 16 - d
  {
    hide Loaded, LoadedItems, InDb;
    var here, later := LoadedItems(InDb(items, d)), LoadedSections(items, d + 1);
    assert LoadedSections(items, d) == here + later;
    if x.db == d {
      InDbMembers(items, d);
      LoadedItemsMembers(InDb(items, d));
      assert Loaded(x) in here;
    } else {
      LoadedIn(items, d + 1, x);
    }
  }

  lemma {:induction false} LoadedFrom(items: seq<RdbEntry>, d: nat, e: RdbEntry)
    requires d <= 16 && e in LoadedSections(items, d)
    ensures e.db < 16 && Comes(e, items)
    decreases 16 - d
  {
    hide Loaded, LoadedItems, InDb;
    var here, later := LoadedItems(InDb(items, d)), LoadedSections(items, d + 1);
    assert LoadedSections(items, d) == here + later;
    if e in here {
      LoadedItemsMembers(InDb(items, d));
      var x :| x in InDb(items, d) && IsString(x.value) && e == Loaded(x);
      InDbMembers(items, d);
      LoadedDb(x);
    } else {
      LoadedFrom(items, d + 1, e);
    }
  }

  lemma LoadedDb(x: RdbEntry)
    ensures Loaded(x).db == x.db && Loaded(x).key == x.key
  {}

  lemma {:induction false} MergedMembers(lists: seq<seq<RdbEntry>>)
    ensures forall x, s :: 0 <= s < |lists| && x in lists[s] ==> x in Merged(lists)
    ensures forall x :: x in Merged(lists) ==> exists s :: 0 <= s < |lists| && x in lists[s]
  {
    if lists != [] {
      MergedMembers(lists[1..]);
      forall x, s | 0 <= s < |lists| && x in lists[s]
        ensures x in Merged(lists)
      {
        if s > 0 {
          assert lists[1..][s - 1] == lists[s];
        }
      }
      forall x | x in Merged(lists)
        ensures exists s :: 0 <= s < |lists| && x in lists[s]
      {
        if x in lists[0] {
          assert 0 < |lists| && x in lists[0];
        } else {
          assert x in Merged(lists[1..]);
          var s :| 0 <= s < |lists[1..]| && x in lists[1..][s];
          assert lists[s + 1] == lists[1..][s];
        }
      }
    }
  }

  // ---- The theorem ----

  /** The strings and integers that are still alive, each as the value its bytes stand for. */
  function Recovered(db: Db, now: Time): Db {
    Db(map k | k in db.prime && IsString(db.prime[k]) && !Expired(db, k, now) :: FromBytes(AsBytes(db.prime[k])),
       map k | k in db.expire && k in db.prime && IsString(db.prime[k]) && !Expired(db, k, now) :: db.expire[k])
  }

  /** Seen by clients at load time: the same live strings, with the same bytes and deadlines. */
  lemma RecoveredView(db: Db, now: Time, k: bytes)
    ensures k in View(Recovered(db, now), now) <==> k in View(db, now) && IsString(db.prime[k])
    ensures k in View(Recovered(db, now), now) ==>
              && AsBytes(View(Recovered(db, now), now)[k].value) == AsBytes(View(db, now)[k].value)
              && View(Recovered(db, now), now)[k].deadline == View(db, now)[k].deadline
  {
    if k in db.prime {
      BytesRoundTrip(AsBytes(db.prime[k]));
    }
    hide FromBytes, AsBytes;
  }

  lemma RecoveredCell(db: Db, now: Time, k: bytes)
    ensures CellOf(Recovered(db, now), k) ==
            if k in db.prime && IsString(db.prime[k]) && !Expired(db, k, now)
            then Cell(Some(FromBytes(AsBytes(db.prime[k]))), DeadlineOf(db, k)) else NOTHING
  {
    hide FromBytes, AsBytes;
  }

  lemma SpreadCell(store: Db, rows: seq<seq<Db>>, i: nat, route: bytes -> nat, s: nat, k: bytes)
    requires Wide(rows) && i < 16 && s < |rows| && Spread(store, Column(rows, i), route)
    ensures CellOf(rows[s][i], k) == if route(k) == s then CellOf(store, k) else NOTHING
  {
    hide CellOf;
    ColumnAt(rows, i, s);
    assert Agree(store, rows[s][i], route, s) && Own(rows[s][i], route, s);
  }

  lemma SnapCell(a: Db, b: Db, i: nat, k: bytes)
    requires CellOf(a, k) == CellOf(b, k)
    ensures k in a.prime <==> k in b.prime
    ensures k in a.prime ==> SnapOf(a, i, k) == SnapOf(b, i, k)
  {
    assert k in a.prime <==> CellOf(a, k).value.Some?;
    assert k in b.prime <==> CellOf(b, k).value.Some?;
  }

  /** The snapshots of the shards together list the unsharded store. */
  lemma MergedLists(stores: seq<Db>, rows: seq<seq<Db>>, lists: seq<seq<RdbEntry>>, route: bytes -> nat)
    requires |stores| == 16 && Wide(rows) && |lists| == |rows| && Total(route, |rows|) && SpreadAll(stores, rows, route)
    requires forall s :: 0 <= s < |rows| ==> Lists(lists[s], rows[s])
    ensures Lists(Merged(lists), stores)
  {
    hide Merged, SnapOf, CellOf, Spread;
    var all := Merged(lists);
    MergedMembers(lists);
    forall x | x in all
      ensures Taken(x, stores)
    {
      var s :| 0 <= s < |lists| && x in lists[s];
      assert Taken(x, rows[s]);
      SpreadCell(stores[x.db], rows, x.db, route, s, x.key);
      StoredCell(rows[s][x.db], x.key);
      SnapCell(rows[s][x.db], stores[x.db], x.db, x.key);
    }
    forall i: nat, k
      ensures Listed(all, stores, i, k)
    {
      if i < 16 && k in stores[i].prime {
        var s := route(k);
        SpreadCell(stores[i], rows, i, route, s, k);
        SnapCell(rows[s][i], stores[i], i, k);
        assert Listed(lists[s], rows[s], i, k);
      }
    }
  }

  lemma StoredCell(db: Db, k: bytes)
    requires k in db.prime
    ensures CellOf(db, k) != NOTHING
  {}

  /** What the file brings back for one key of one database. */
  lemma LoadedFor(stores: seq<Db>, items: seq<RdbEntry>, route: bytes -> nat, s: nat, i: nat, k: bytes)
    requires |stores| == 16 && i < 16 && Lists(items, stores)
    ensures var es := EntriesFor(LoadedSections(items, 0), route, s);
            && InRange(es) && Functional(es)
            && LastFor(es, i, k) ==
               if k in stores[i].prime && IsString(stores[i].prime[k]) && route(k) == s
               then Some(Loaded(SnapOf(stores[i], i, k))) else None
  {
    hide Loaded, LoadedSections, EntriesFor, LastFor, SnapOf;
    var all := LoadedSections(items, 0);
    var es := EntriesFor(all, route, s);
    EntriesForMembers(all, route, s);
    forall e | e in es
      ensures e.db < 16 && e.key in stores[e.db].prime && IsString(stores[e.db].prime[e.key])
      ensures e == Loaded(SnapOf(stores[e.db], e.db, e.key)) && route(e.key) == s
    {
      LoadedFrom(items, 0, e);
      var x :| x in items && IsString(x.value) && e == Loaded(x);
      assert Taken(x, stores);
      LoadedDb(x);
      SnapValue(stores[x.db], x.db, x.key);
    }
    assert forall j :: 0 <= j < |es| ==> es[j] in es;
    if k in stores[i].prime && IsString(stores[i].prime[k]) && route(k) == s {
      var x := SnapOf(stores[i], i, k);
      assert Listed(items, stores, i, k);
      SnapValue(stores[i], i, k);
      LoadedDb(x);
      LoadedIn(items, 0, x);
      assert Loaded(x) in all && Loaded(x) in es;
    }
  }

  lemma SnapValue(db: Db, i: nat, k: bytes)
    requires k in db.prime
    ensures SnapOf(db, i, k).db == i && SnapOf(db, i, k).key == k && SnapOf(db, i, k).value == db.prime[k]
  {}

  lemma EntryCell(db: Db, i: nat, k: bytes, now: Time)
    requires k in db.prime && IsString(db.prime[k])
    ensures CellFor(Some(Loaded(SnapOf(db, i, k))), now) == CellOf(Recovered(db, now), k)
  {
    hide FromBytes, AsBytes, Recovered, CellOf;
    RecoveredCell(db, now, k);
  }

  /** Any number of shards filled from the file holds exactly the recovered store, every key on its shard. */
  lemma RecoverySpreads(stores: seq<Db>, items: seq<RdbEntry>, rows: seq<seq<Db>>, route: bytes -> nat, now: Time)
    requires |stores| == 16 && Lists(items, stores) && Wide(rows)
    requires forall s :: 0 <= s < |rows| ==>
               var es := EntriesFor(LoadedSections(items, 0), route, s);
               InRange(es) && rows[s] == LoadEach(EMPTY_ROW, es, now)
    ensures forall i :: 0 <= i < 16 ==> Spread(Recovered(stores[i], now), Column(rows, i), route)
  {
    hide Lists, LoadedSections, EntriesFor, LoadEach, Recovered, CellOf, CellFor, Loaded, SnapOf, LastFor, Functional, InRange;
    forall i, s, k | 0 <= i < 16 && 0 <= s < |rows|
      ensures CellOf(rows[s][i], k) == if route(k) == s then CellOf(Recovered(stores[i], now), k) else NOTHING
    {
      LoadedFor(stores, items, route, s, i, k);
      LoadedCell(EntriesFor(LoadedSections(items, 0), route, s), now, i, k);
      NoCell(now);
      if k in stores[i].prime && IsString(stores[i].prime[k]) {
        EntryCell(stores[i], i, k, now);
      } else {
        RecoveredCell(stores[i], now, k);
      }
    }
    forall i | 0 <= i < 16
      ensures Spread(Recovered(stores[i], now), Column(rows, i), route)
    {
      forall s | 0 <= s < |rows|
        ensures Column(rows, i)[s] == rows[s][i]
      {
        ColumnAt(rows, i, s);
      }
    }
  }

  lemma NoCell(now: Time)
    ensures CellFor(None, now) == NOTHING
  {}

  // ---- From the old shards to the new ones ----

  ghost predicate Iterates(orders: seq<seq<bytes>>, dbs: seq<Db>)
  {
    |orders| == |dbs| == 16 && forall i :: 0 <= i < 16 ==> Enumerates(orders[i], dbs[i].prime.Keys)
  }

  /** Sizes that a machine can hold, and no collection with a deadline. */
  ghost predicate Saveable(stores: seq<Db>)
    requires |stores| == 16
  {
    forall i, k :: 0 <= i < 16 && k in stores[i].prime ==>
                     && |k| < 0x1_0000_0000_0000_0000 && Storable(stores[i].prime[k])
                     && (IsString(stores[i].prime[k]) || k !in stores[i].expire)
  }

  lemma SaveableItems(stores: seq<Db>, items: seq<RdbEntry>)
    requires |stores| == 16 && Saveable(stores) && Lists(items, stores) && |items| < 0x1_0000_0000_0000_0000
    ensures ItemsOk(items) && NoStray(items)
  {
    hide Storable, Listed;
    forall j | 0 <= j < |items|
      ensures ItemOk(items[j]) && !Stray(items[j])
    {
      var x := items[j];
      assert x in items && Taken(x, stores);
      assert 0 <= x.db < 16 && x.key in stores[x.db].prime;
      assert x.value == stores[x.db].prime[x.key];
    }
  }

  lemma {:induction false} MergedSize(lists: seq<seq<RdbEntry>>)
    ensures |Merged(lists)| == Entries(lists)
  {
    if lists != [] {
      MergedSize(lists[1..]);
    }
  }

  /** Every shard is asked for its snapshot. */
  method CollectAll(shards: seq<DbSlice>, orders: seq<seq<seq<bytes>>>, ghost rows: seq<seq<Db>>)
    returns (lists: seq<seq<RdbEntry>>)
    requires Cluster(shards, rows) && |orders| == |shards|
    requires forall s :: 0 <= s < |shards| ==> |rows[s]| == 16 && Iterates(orders[s], rows[s])
    ensures |lists| == |rows| && forall s :: 0 <= s < |rows| ==> |rows[s]| == 16 && Lists(lists[s], rows[s])
    ensures forall s :: 0 <= s < |rows| ==> |lists[s]| == Entries(orders[s])
  {
    hide Lists, Entries, Enumerates;
    lists := [];
    for s := 0 to |shards|
      invariant |lists| == s && forall t :: 0 <= t < s ==> Lists(lists[t], rows[t]) && |lists[t]| == Entries(orders[t])
    {
      var items := CollectSnapshot(shards[s], orders[s]);
      lists := lists + [items];
    }
  }

  /** Every shard loads its own list. */
  method LoadAllShards(shards: seq<DbSlice>, lists: seq<seq<RdbEntry>>, now: Time)
    requires Cluster(shards, seq(|shards|, s => EMPTY_ROW)) && |lists| == |shards|
    requires forall s :: 0 <= s < |lists| ==> InRange(lists[s])
    modifies shards
    ensures Cluster(shards, seq(|shards|, s requires 0 <= s < |lists| => LoadEach(EMPTY_ROW, lists[s], now)))
  {
    hide LoadEach;
    for s := 0 to |shards|
      invariant forall t :: 0 <= t < |shards| ==> shards[t].Valid()
      invariant forall t :: 0 <= t < s ==> shards[t].dbs == LoadEach(EMPTY_ROW, lists[t], now)
      invariant forall t :: s <= t < |shards| ==> shards[t].dbs == EMPTY_ROW
    {
      LoadShard(shards[s], lists[s], now);
    }
  }

  lemma {:induction false} SameEntries<S, T>(a: seq<seq<S>>, n: seq<T>, size: T -> nat)
    requires |a| == |n| && forall s :: 0 <= s < |a| ==> |a[s]| == size(n[s])
    ensures Entries(a) == Sizes(n, size)
    decreases |a|
  {
    if a != [] {
      SameEntries(a[1..], n[1..], size);
    }
  }

  function Sizes<T>(xs: seq<T>, size: T -> nat): nat { if xs == [] then 0 else size(xs[0]) + Sizes(xs[1..], size) }

  /**
   A quiet server is saved and its file loaded by a server with any number of shards: the new shards
   hold the live strings and integers of the old ones, key by key, with their deadlines.
   */
  method SaveAndRecover(shards: seq<DbSlice>, orders: seq<seq<seq<bytes>>>, route: bytes -> nat,
                        target: seq<DbSlice>, toShard: bytes -> nat, now: Time,
                        ghost rows: seq<seq<Db>>, ghost stores: seq<Db>)
    returns (r: Result<seq<RdbEntry>, RdbError>, ghost after: seq<seq<Db>>)
    requires Cluster(shards, rows) && Wide(rows) && Total(route, |shards|)
    requires |stores| == 16 && SpreadAll(stores, rows, route) && Saveable(stores)
    requires |orders| == |shards| && forall s :: 0 <= s < |shards| ==> Iterates(orders[s], rows[s])
    requires Sizes(orders, (o: seq<seq<bytes>>) => Entries(o)) < 0x1_0000_0000_0000_0000
    requires Cluster(target, seq(|target|, s => EMPTY_ROW)) && Total(toShard, |target|)
    modifies target
    ensures r.Ok? && Cluster(target, after) && Wide(after)
    ensures forall i :: 0 <= i < 16 ==> Spread(Recovered(stores[i], now), Column(after, i), toShard)
  {
    hide Cluster, Lists, SpreadAll, Spread, Saveable, IsTable, File, LoadAll, LoadedSections, EntriesFor, Iterates, Recovered,
         Merged, LoadEach, Total, Column, ItemsOk, NoStray, Sizes, Entries, InRange;
    ClusterWide(shards, rows);
    var lists := CollectAll(shards, orders, rows);
    ghost var items := Merged(lists);
    MergedLists(stores, rows, lists, route);
    MergedSize(lists);
    SameEntries(lists, orders, (o: seq<seq<bytes>>) => Entries(o));
    SaveableItems(stores, items);
    var table := BuildTable();
    var out, _ := SaveRdb(table, lists);
    SavedFileLoads(items);
    r := LoadFile(table, out);
    var parts := Distribute(r.value, toShard, |target|);
    forall s | 0 <= s < |target|
      ensures InRange(parts[s])
    {
      LoadedFor(stores, items, toShard, s, 0, []);
    }
    LoadAllShards(target, parts, now);
    after := seq(|target|, s requires 0 <= s < |parts| => LoadEach(EMPTY_ROW, parts[s], now));
    RecoverySpreads(stores, items, after, toShard, now);
  }
}
