/** The hash table: a vector of segments that doubles when a segment is full. */
module DashTables {
  import opened Common
  import opened Collect
  import opened Buckets
  import opened Placement
  import opened Segments
  import opened Entries
  import opened TableTheory

  /** The program panics; what follows is undefined. */
  datatype Panic = ItemLostDuringGrow | InsertFailedAfterGrowth

  ghost predicate AllPacked<K(!new), V(!new)>(segs: seq<Segment<K, V>>)
    reads segs
  {
    forall s :: s in segs ==> AllValid(s.buckets)
  }

  ghost function AllViews<K(!new), V(!new)>(segs: seq<Segment<K, V>>): (tv: seq<seq<View<K, V>>>)
    requires AllPacked(segs)
    reads segs
    ensures |tv| == |segs| && forall i :: 0 <= i < |segs| ==> tv[i] == segs[i].View()
  {
    if segs == [] then [] else [segs[0].View()] + AllViews(segs[1..])
  }

  ghost predicate AllReady<K(!new), V(!new)>(segs: seq<Segment<K, V>>, hash: K -> u64)
    reads segs
  {
    && (forall i, j :: 0 <= i < j < |segs| ==> segs[i] != segs[j])
    && forall s :: s in segs ==> s.Ready(hash)
  }

  /** Deleting at one position frees that position only. */
  lemma DeletedSlots<K, V>(sv: seq<View<K, V>>, h: u64, b: nat, s: nat, c: int, r: int)
    requires Shape(sv) && TakenAt(sv, b, s)
    ensures Shape(DeleteAt(sv, h, b, s))
    ensures TakenAt(DeleteAt(sv, h, b, s), c, r) <==> TakenAt(sv, c, r) && (c, r) != (b, s)
  {
    hide DeleteAt;
    DeleteShape(sv, h, b, s);
  }

  lemma EmptyItems<K(!new), V(!new)>(sv: seq<View<K, V>>)
    requires Shape(sv) && forall b, s :: !TakenAt(sv, b, s)
    ensures Items(sv) == multiset{}
  {
    hide Items;
    forall x ensures Items(sv)[x] == 0 {
      ItemsMember(sv, x);
      assert x !in Items(sv);
    }
  }

  /** Take everything out of a segment, last position first. */
  method Drain<K(==, !new), V(!new)>(seg: Segment<K, V>, hash: K -> u64) returns (items: seq<(K, V)>)
    requires seg.Ready(hash)
    modifies seg
    ensures seg.Ready(hash)
    ensures multiset(items) == old(Items(seg.View()))
  {
    hide Items, Complete, DeleteGuard, DeleteAt, AllValid, ViewsOf, TakenAt, Placed, Tracked;
    var ps := seg.Positions();
    items := [];
    ghost var start := Items(seg.View());
    var i := |ps|;
    while i > 0
      invariant 0 <= i <= |ps|
      invariant seg.Ready(hash)
      invariant forall j :: 0 <= j < i ==> TakenAt(seg.View(), ps[j].bucket, ps[j].slot)
      invariant forall b, s :: TakenAt(seg.View(), b, s) ==> exists j :: 0 <= j < i && (ps[j].bucket, ps[j].slot) == (b, s)
      invariant multiset(items) + Items(seg.View()) == start
    {
      i := i - 1;
      ghost var sv := seg.View();
      var pos := ps[i];
      var entry := seg.EntryAt(pos);
      var h := hash(entry.0);
      entry := seg.Delete(pos, h, hash);
      ghost var sv' := seg.View();
      forall c, r ensures TakenAt(sv', c, r) <==> TakenAt(sv, c, r) && (c, r) != (pos.bucket, pos.slot) {
        DeletedSlots(sv, h, pos.bucket, pos.slot, c, r);
      }
      forall j | 0 <= j < i ensures TakenAt(sv', ps[j].bucket, ps[j].slot) {
        assert Before(ps[j], ps[i]);
      }
      forall b, s | TakenAt(sv', b, s) ensures exists j :: 0 <= j < i && (ps[j].bucket, ps[j].slot) == (b, s) {
        var j :| 0 <= j < i + 1 && (ps[j].bucket, ps[j].slot) == (b, s);
        assert j != i;
      }
      items := items + [entry];
    }
    EmptyItems(seg.View());
  }

  /** Every stored key sits where its hash sends it and every segment is in order. */
  ghost predicate InOrder<K(!new), V(!new)>(segs: seq<Segment<K, V>>, hash: K -> u64)
    reads segs
  {
    |segs| > 0 && AllPacked(segs) && AllReady(segs, hash) && Routed(AllViews(segs), hash)
  }

  /** Add an entry to the segment its hash selects; refused exactly when that segment has no room for it. */
  method InsertInto<K(==, !new), V(!new)>(segs: seq<Segment<K, V>>, k: K, v: V, h: u64, hash: K -> u64) returns (ok: bool)
    requires InOrder(segs, hash) && h == hash(k)
    modifies segs
    ensures InOrder(segs, hash)
    ensures ok <==> !NoRoom(old(segs[SegId(h, |segs|)].View()), h)
    ensures !ok ==> AllViews(segs) == old(AllViews(segs))
    ensures ok ==> Contents(AllViews(segs)) == old(Contents(AllViews(segs))) + multiset{(k, v)}
    ensures old(AllComplete(AllViews(segs), hash)) ==> AllComplete(AllViews(segs), hash)
  {
    hide Items, Complete, AllValid, ViewsOf, Sound, InsertAt, Contents, SegId, NoRoom, AllViews, Segment.Ready, Segment.View, Routed;
    var sid := SegId(h, |segs|);
    ghost var tv := AllViews(segs);
    var r := segs[sid].InsertNew(k, v, h, hash);
    ghost var sv := segs[sid].View();
    assert AllViews(segs) == tv[sid := sv];
    ok := r.Some?;
    if ok {
      ContentsInsert(tv, sid, sv, (k, v));
      RoutedInsert(tv, hash, sid, sv, k, v);
    } else {
      assert tv[sid := sv] == tv;
    }
  }

  /** Refill fresh segments with the items of the old ones; fails when an item finds no room. */
  method Rebuild<K(==, !new), V(!new)>(items: seq<(K, V)>, n: nat, hash: K -> u64)
    returns (ok: bool, segs: seq<Segment<K, V>>)
    requires n > 0
    ensures |segs| == n && InOrder(segs, hash) && fresh(segs)
    ensures AllComplete(AllViews(segs), hash)
    ensures ok ==> Contents(AllViews(segs)) == multiset(items)
  {
    hide AllComplete, Contents, Routed, AllReady, AllPacked, AllViews, SegId, NoRoom;
    segs := FreshSegments(n, hash);
    for i := 0 to |items|
      invariant |segs| == n && InOrder(segs, hash) && fresh(segs)
      invariant AllPacked(segs)
      invariant AllComplete(AllViews(segs), hash)
      invariant Contents(AllViews(segs)) == multiset(items[..i])
    {
      var (k, v) := items[i];
      var placed := InsertInto(segs, k, v, hash(k), hash);
      if !placed {
        return false, segs;
      }
      assert items[..i + 1] == items[..i] + [(k, v)];
    }
    assert items[..|items|] == items;
    ok := true;
  }

  lemma RoutedInsert<K(!new), V(!new)>(tv: seq<seq<View<K, V>>>, hash: K -> u64, i: nat, sv: seq<View<K, V>>, k: K, v: V)
    requires |tv| > 0 && i == SegId(hash(k), |tv|) && Routed(tv, hash) && Items(sv) == Items(tv[i]) + multiset{(k, v)}
    ensures Routed(tv[i := sv], hash)
  {
    hide Items, SegId;
  }

  method FreshSegments<K(==, !new), V(!new)>(n: nat, hash: K -> u64) returns (segs: seq<Segment<K, V>>)
    requires n > 0
    ensures |segs| == n && InOrder(segs, hash) && fresh(segs)
    ensures AllComplete(AllViews(segs), hash)
    ensures Contents(AllViews(segs)) == multiset{} && AllViews(segs) == seq(n, i => EmptySegment<K, V>())
  {
    hide Items, Complete, AllValid, Segment.Ready, Segment.View, SegId, AllViews, EmptySegment;
    segs := [];
    while |segs| < n
      invariant |segs| <= n
      invariant AllPacked(segs) && AllReady(segs, hash) && fresh(segs)
      invariant forall s :: s in segs ==> Items(s.View()) == multiset{} && Complete(s.View(), hash)
      invariant forall s :: s in segs ==> s.View() == EmptySegment<K, V>()
    {
      var seg := new Segment<K, V>(hash);
      segs := segs + [seg];
    }
    FlatMapEmpty(Items<K, V>, AllViews(segs));
  }

  /** Take everything out of every segment. */
  method DrainAll<K(==, !new), V(!new)>(segs: seq<Segment<K, V>>, hash: K -> u64) returns (items: seq<(K, V)>)
    requires InOrder(segs, hash)
    modifies segs
    ensures multiset(items) == old(Contents(AllViews(segs)))
  {
    hide Items, AllValid, Segment.Ready, Segment.View, SegId, AllViews, Routed;
    ghost var tv := AllViews(segs);
    items := [];
    for i := 0 to |segs|
      invariant forall j :: i <= j < |segs| ==>
                  AllValid(segs[j].buckets) && segs[j].Ready(hash) && segs[j].View() == tv[j]
      invariant multiset(items) + Contents(tv[i..]) == Contents(tv)
    {
      assert tv[i..][1..] == tv[i + 1..];
      var more := Drain(segs[i], hash);
      items := items + more;
    }
  }

  // What finding a slot, or none, says about the whole table.

  lemma FoundIsStored<K(!new), V(!new)>(tv: seq<seq<View<K, V>>>, i: nat, b: int, s: int)
    requires i < |tv| && Shape(tv[i]) && TakenAt(tv[i], b, s)
    ensures var x := tv[i][b].slots[s]; (x.key, x.value) in Contents(tv)
  {
    hide Items, FlatMap;
    var x := tv[i][b].slots[s];
    ItemsMember(tv[i], (x.key, x.value));
    FlatMapMember(Items<K, V>, tv, (x.key, x.value));
  }

  lemma SegmentsSound<K(!new), V(!new)>(segs: seq<Segment<K, V>>, hash: K -> u64)
    requires AllPacked(segs) && AllReady(segs, hash)
    ensures AllSound(AllViews(segs), hash)
  {
    hide Sound, Items;
    forall i | 0 <= i < |segs|
      ensures Sound(AllViews(segs)[i], hash)
    {
      assert segs[i] in segs;
    }
  }

  /** A stored key that a lookup misses is out of sight. */
  lemma MissedIsAbsent<K(!new), V(!new)>(tv: seq<seq<View<K, V>>>, hash: K -> u64, key: K, v: V)
    requires |tv| > 0 && Routed(tv, hash) && AllSeen(tv, hash) && !FindsIn(tv, hash, key)
    ensures (key, v) !in Contents(tv)
  {
    hide Contents, SegId, VisibleAt, Routed;
    if (key, v) in Contents(tv) {
      var b, s := SlotOf(tv, hash, key, v);
    }
  }

  ghost predicate SlotHolds<K(!new), V(!new)>(seg: Segment<K, V>, pos: SegmentPos, key: K)
    reads seg
  {
    && AllValid(seg.buckets) && TakenAt(seg.View(), pos.bucket, pos.slot)
    && seg.View()[pos.bucket].slots[pos.slot].key == key
  }

  /** The entries after inserting: one more, or one with its value exchanged. */
  ghost predicate Inserted<K, V>(e: multiset<(K, V)>, k: K, v: V, reply: Option<V>, e': multiset<(K, V)>) {
    if reply.None? then e' == e + multiset{(k, v)}
    else (k, reply.value) in e && e' + multiset{(k, reply.value)} == e + multiset{(k, v)}
  }

  ghost predicate Removed<K, V>(e: multiset<(K, V)>, k: K, reply: Option<V>, e': multiset<(K, V)>) {
    if reply.None? then e' == e else e == e' + multiset{(k, reply.value)}
  }

  ghost predicate KeyGuard<K(!new), V(!new)>(sv: seq<View<K, V>>, h: u64, key: K)
    requires Shape(sv)
  {
    forall b, s :: TakenAt(sv, b, s) && sv[b].slots[s].key == key ==> DeleteGuard(sv, h, b)
  }

  /** No slot of the key is a stash slot whose removal would hide another item from the bucket after its home. */
  ghost predicate KeyHarmless<K(!new), V(!new)>(sv: seq<View<K, V>>, hash: K -> u64, key: K)
    requires Shape(sv)
  {
    var h := hash(key);
    var n := NextOf(HomeOf(h));
    forall b, s :: TakenAt(sv, b, s) && sv[b].slots[s].key == key ==>
                     b < 64 || Harmless(sv[n], StashTags(sv, hash, n), (FpOf(h), b - 64))
  }

  class DashTable<K(==, !new), V(!new)> {
    var segments: seq<Segment<K, V>>
    var size: nat
    const hash: K -> u64

    ghost predicate Valid()
      reads this, segments
    {
      InOrder(segments, hash) && size == |Contents(AllViews(segments))|
    }

    /** The table is the map: every entry of it, each once, and all of them findable. */
    ghost predicate Agrees(m: map<K, V>)
      reads this, segments
    {
      Valid() && AllComplete(AllViews(segments), hash) && Holds(Contents(AllViews(segments)), m)
    }

    constructor (hash: K -> u64)
      ensures Valid() && Agrees(map[]) && this.hash == hash && |segments| == 4
      ensures fresh(segments) && AllViews(segments) == seq(4, i => EmptySegment<K, V>())
    {
      hide Contents, Routed, AllPacked, AllReady, AllComplete, AllViews, Holds;
      var segs := FreshSegments<K, V>(4, hash);
      HoldsEmpty<K, V>();
      this.hash := hash;
      segments := segs;
      size := 0;
    }

    /** Which segment and slot hold a key, as a lookup sees it. */
    method Locate(key: K) returns (sid: nat, r: Option<SegmentPos>)
      requires Valid()
      ensures sid == SegId(hash(key), |segments|) < |segments|
      ensures r.Some? ==> SlotHolds(segments[sid], r.value, key)
      ensures r.Some? <==> FindsIn(AllViews(segments), hash, key)
      ensures r.None? && AllSeen(AllViews(segments), hash) ==> forall v :: (key, v) !in Contents(AllViews(segments))
    {
      hide Items, AllSeen, Contents, SegId, AllViews, Routed, AllValid, VisibleAt, Sound;
      sid := SegId(hash(key), |segments|);
      r := segments[sid].Find(hash(key), key, hash);
      if r.Some? {
        VisibleTaken(segments[sid].View(), hash(key), r.value.bucket, r.value.slot);
      }
      ghost var tv := AllViews(segments);
      assert r.Some? <==> FindsIn(tv, hash, key);
      hide FindsIn;
      if r.None? && AllSeen(tv, hash) {
        forall v ensures (key, v) !in Contents(tv) {
          MissedIsAbsent(tv, hash, key, v);
        }
      }
    }

    /** With complete tracking no stored entry is out of sight. */
    lemma Seen()
      requires Valid() && AllComplete(AllViews(segments), hash)
      ensures AllSeen(AllViews(segments), hash)
    {
      hide AllComplete, AllSeen, AllSound, Contents, Routed;
      SegmentsSound(segments, hash);
      CompleteSeen(AllViews(segments), hash);
    }

    /** A lookup returns only what is stored; on a table that holds a map, with nothing out of sight, what the map has. */
    method Find(key: K, ghost m: map<K, V>) returns (r: Option<V>)
      requires Valid()
      ensures r.Some? ==> (key, r.value) in Contents(AllViews(segments))
      ensures r.Some? <==> FindsIn(AllViews(segments), hash, key)
      ensures Holds(Contents(AllViews(segments)), m) && AllSeen(AllViews(segments), hash) ==> r == Lookup(m, key)
      ensures Agrees(m) ==> r == Lookup(m, key)
    {
      hide Items, AllComplete, Contents, SegId, Routed, AllValid, AllViews, AllSeen, FindsIn;
      if Agrees(m) {
        Seen();
      }
      var sid, pos := Locate(key);
      if pos.None? {
        ghost var tv := AllViews(segments);
        assert Holds(Contents(tv), m) && key in m ==> Contents(tv)[(key, m[key])] == 1;
        return None;
      }
      var entry := segments[sid].EntryAt(pos.value);
      FoundIsStored(AllViews(segments), sid, pos.value.bucket, pos.value.slot);
      return Some(entry.1);
    }

    /** Double the number of segments and reinsert everything; the entries stay the same. */
    method Grow() returns (ok: bool)
      requires Valid()
      modifies this, segments
      ensures |segments| == 2 * old(|segments|) && fresh(segments)
      ensures ok ==> Valid() && Grown(old(AllViews(segments)), AllViews(segments), hash)
    {
      hide Items, AllComplete, Contents, SegId, Routed, AllValid, AllViews, AllReady, Grown;
      ghost var tv := AllViews(segments);
      var items := DrainAll(segments, hash);
      var n := |segments| * 2;
      var done, segs := Rebuild(items, n, hash);
      ok := done;
      segments := segs;
      size := |items|;
      assert |multiset(items)| == |items|;
      if ok {
        GrowDrawsAll(tv, AllViews(segments), hash);
      }
    }

    /** Insert or overwrite; on a table that is a map this is the map's update and returns its old value. */
    method Insert(key: K, value: V, ghost m: map<K, V>) returns (r: Result<Option<V>, Panic>)
      requires Valid()
      modifies this, segments
      ensures r.Ok? ==> Valid()
      ensures r.Ok? ==> Inserted(old(Contents(AllViews(segments))), key, value, r.value, Contents(AllViews(segments)))
      ensures r.Ok? ==> (r.value.Some? <==> old(FindsIn(AllViews(segments), hash, key)))
      ensures r.Ok? && old(Agrees(m)) ==> Agrees(m[key := value]) && r.value == Lookup(m, key)
      ensures segments == old(segments) || fresh(segments)
    {
      hide Items, AllComplete, Contents, SegId, Routed, AllReady, AllPacked, AllValid, AllViews, SlotHolds, FindsIn, AllSeen;
      if Agrees(m) {
        Seen();
      }
      var sid, pos := Locate(key);
      if pos.Some? {
        var previous := OverwriteIn(sid, pos.value, key, value, m);
        return Ok(Some(previous));
      }
      ghost var before := Contents(AllViews(segments));
      var panic := InsertAbsent(key, value);
      if panic.Some? {
        return Err(panic.value);
      }
      if old(Agrees(m)) {
        assert key in m ==> before[(key, m[key])] == 1;
        HoldsInsert(before, m, key, value);
      }
      return Ok(None);
    }

    /** Add a key that was not found, growing when its segment is full. */
    method InsertAbsent(key: K, value: V) returns (panic: Option<Panic>)
      requires Valid()
      modifies this, segments
      ensures segments == old(segments) || fresh(segments)
      ensures panic.None? ==> Valid()
      ensures panic.None? ==> Contents(AllViews(segments)) == old(Contents(AllViews(segments))) + multiset{(key, value)}
      ensures panic.None? && old(AllComplete(AllViews(segments), hash)) ==> AllComplete(AllViews(segments), hash)
    {
      hide AllComplete, Contents, Routed, AllReady, AllPacked, AllViews;
      var h := hash(key);
      var placed, grown := InsertOrGrow(key, value, h);
      if placed { return None; }
      if !grown { return Some(ItemLostDuringGrow); }
      panic := InsertNoDup(key, value, h);
    }

    /** One attempt: place the key, or else double the table. */
    method InsertOrGrow(key: K, value: V, h: u64) returns (placed: bool, grown: bool)
      requires Valid() && h == hash(key)
      modifies this, segments
      ensures placed ==> segments == old(segments) && !grown
      ensures !placed ==> fresh(segments)
      ensures placed || grown ==> Valid()
      ensures placed ==> Contents(AllViews(segments)) == old(Contents(AllViews(segments))) + multiset{(key, value)}
      ensures placed && old(AllComplete(AllViews(segments), hash)) ==> AllComplete(AllViews(segments), hash)
      ensures grown ==> Contents(AllViews(segments)) == old(Contents(AllViews(segments)))
                        && AllComplete(AllViews(segments), hash)
    {
      hide AllComplete, Contents, Routed, AllReady, AllPacked, AllViews, SegId, NoRoom;
      placed := InsertInto(segments, key, value, h, hash);
      grown := false;
      if placed {
        size := size + 1;
      } else {
        grown := Grow();
      }
    }

    /** Retry after growing, up to ten times. */
    method InsertNoDup(key: K, value: V, h: u64) returns (panic: Option<Panic>)
      requires Valid() && h == hash(key) && AllComplete(AllViews(segments), hash)
      modifies this, segments
      ensures segments == old(segments) || fresh(segments)
      ensures panic.None? ==> Valid() && AllComplete(AllViews(segments), hash)
      ensures panic.None? ==> Contents(AllViews(segments)) == old(Contents(AllViews(segments))) + multiset{(key, value)}
    {
      hide AllComplete, Contents, Routed, AllReady, AllPacked, AllViews;
      ghost var before := Contents(AllViews(segments));
      for i := 0 to 10
        invariant Valid() && AllComplete(AllViews(segments), hash)
        invariant segments == old(segments) || fresh(segments)
        invariant Contents(AllViews(segments)) == before
      {
        var placed, grown := InsertOrGrow(key, value, h);
        if placed { return None; }
        if !grown { return Some(ItemLostDuringGrow); }
      }
      return Some(InsertFailedAfterGrowth);
    }

    method OverwriteIn(sid: nat, pos: SegmentPos, key: K, value: V, ghost m: map<K, V>) returns (previous: V)
      requires Valid() && sid == SegId(hash(key), |segments|) && SlotHolds(segments[sid], pos, key)
      modifies segments
      ensures Valid()
      ensures Inserted(old(Contents(AllViews(segments))), key, value, Some(previous), Contents(AllViews(segments)))
      ensures old(Agrees(m)) ==> Agrees(m[key := value]) && Some(previous) == Lookup(m, key)
    {
      hide Items, Complete, Contents, SegId, AllValid, AllViews, Segment.View, Segment.Ready, Holds;
      ghost var tv: seq<seq<View<K, V>>> := AllViews(segments);
      ghost var x := tv[sid][pos.bucket].slots[pos.slot];
      previous := segments[sid].Overwrite(pos, value, hash);
      ghost var sv := segments[sid].View();
      assert AllViews(segments) == tv[sid := sv];
      ContentsReplace(tv, sid, sv, (key, x.value), (key, value));
      RoutedReplace(tv, hash, sid, sv, key, x.value, value);
      FoundIsStored(tv, sid, pos.bucket, pos.slot);
      assert |Contents(tv[sid := sv]) + multiset{(key, x.value)}| == |Contents(tv) + multiset{(key, value)}|;
      if old(Agrees(m)) {
        HoldsReplace(Contents(tv), Contents(tv[sid := sv]), m, key, x.value, value);
      }
    }

    /** Removing this key makes no other bucket forget one of its stash items. */
    ghost predicate RemoveGuard(key: K)
      requires |segments| > 0 && AllPacked(segments)
      reads this, segments
    {
      hide AllValid, SegId;
      KeyGuard(segments[SegId(hash(key), |segments|)].View(), hash(key), key)
    }

    /** Removing this key hides no other: it is not in the stash, or harmless to the bucket after its home. */
    ghost predicate RemoveHarmless(key: K)
      requires |segments| > 0 && AllPacked(segments)
      reads this, segments
    {
      hide AllValid, SegId;
      KeyHarmless(segments[SegId(hash(key), |segments|)].View(), hash, key)
    }

    /** Take an entry out of its slot. */
    method DeleteIn(sid: nat, pos: SegmentPos, key: K, ghost m: map<K, V>) returns (value: V)
      requires Valid() && sid == SegId(hash(key), |segments|) && SlotHolds(segments[sid], pos, key)
      modifies this`size, segments
      ensures Valid()
      ensures old(Contents(AllViews(segments))) == Contents(AllViews(segments)) + multiset{(key, value)}
      ensures old(Agrees(m)) ==> RemovedFrom(old(AllViews(segments)), AllViews(segments), hash, m, key)
      ensures old(Agrees(m)) ==> Some(value) == Lookup(m, key)
    {
      hide Items, Complete, Contents, SegId, AllValid, AllViews, Segment.View, Segment.Ready, Holds, Inserted;
      hide Routed, AllComplete, AllSound, DeleteGuard, DeleteAt, FindsAll, KeyGuard, KeyHarmless, Draws;
      ghost var tv: seq<seq<View<K, V>>> := AllViews(segments);
      SegmentsSound(segments, hash);
      var entry := segments[sid].Delete(pos, hash(key), hash);
      ghost var sv := segments[sid].View();
      assert AllViews(segments) == tv[sid := sv];
      RemoveEffect(tv, hash, sid, sv, key, pos);
      if old(Agrees(m)) {
        RemoveOutcome(tv, hash, m, sid, sv, key, pos);
      }
      size := size - 1;
      value := entry.1;
    }

    /**
     Remove a key. A table that was the map returns the map's value and holds exactly the remaining
     entries. Every remaining key is still found if and only if the removal was harmless; the stash
     accounting stays complete, so that the table is the map again, if and only if it was guarded.
     */
    method Remove(key: K, ghost m: map<K, V>) returns (r: Option<V>)
      requires Valid()
      modifies this, segments
      ensures Valid() && segments == old(segments)
      ensures Removed(old(Contents(AllViews(segments))), key, r, Contents(AllViews(segments)))
      ensures old(Agrees(m)) ==>
                && r == Lookup(m, key)
                && Holds(Contents(AllViews(segments)), m - {key})
                && (Agrees(m - {key}) <==> old(RemoveGuard(key)))
                && (FindsAll(AllViews(segments), hash, m - {key}) <==> old(RemoveHarmless(key)))
    {
      hide Contents, SegId, AllValid, AllViews, Segment.View, Segment.Ready, Holds, SlotHolds, AllReady, AllPacked;
      hide Routed, AllComplete, AllSeen, FindsIn, FindsAll, KeyGuard, KeyHarmless;
      if Agrees(m) {
        Seen();
      }
      var sid, pos := Locate(key);
      if pos.None? {
        if Agrees(m) {
          AbsentOutcome(AllViews(segments), hash, m, key);
        }
        return None;
      }
      var value := DeleteIn(sid, pos.value, key, m);
      return Some(value);
    }
  }

  /** All that a removal from a table that is a map leaves behind. */
  ghost predicate RemovedFrom<K(!new), V(!new)>(tv: seq<seq<View<K, V>>>, tv': seq<seq<View<K, V>>>, hash: K -> u64,
                                m: map<K, V>, key: K) {
    && |tv| > 0 && Shape(tv[SegId(hash(key), |tv|)])
    && Holds(Contents(tv'), m - {key})
    && (AllComplete(tv', hash) <==> KeyGuard(tv[SegId(hash(key), |tv|)], hash(key), key))
    && (FindsAll(tv', hash, m - {key}) <==> KeyHarmless(tv[SegId(hash(key), |tv|)], hash, key))
  }

  lemma AbsentOutcome<K(!new), V(!new)>(tv: seq<seq<View<K, V>>>, hash: K -> u64, m: map<K, V>, key: K)
    requires |tv| > 0 && Routed(tv, hash) && Holds(Contents(tv), m) && forall v :: (key, v) !in Contents(tv)
    requires AllSeen(tv, hash) && AllComplete(tv, hash)
    ensures key !in m && m - {key} == m && RemovedFrom(tv, tv, hash, m, key)
  {
    hide Contents, SegId, Routed, Holds, FindsAll, Complete, AllVisible, DeleteGuard, Harmless;
    AbsentKey(tv, hash, m, key);
    AbsentFinds(tv, hash, m);
  }

  /** What deleting one slot does to the table. */
  lemma RemoveEffect<K(!new), V(!new)>(tv: seq<seq<View<K, V>>>, hash: K -> u64, i: nat, sv: seq<View<K, V>>,
                                       key: K, pos: SegmentPos)
    requires i < |tv| && Routed(tv, hash) && Shape(tv[i]) && TakenAt(tv[i], pos.bucket, pos.slot)
    requires var x := tv[i][pos.bucket].slots[pos.slot]; x.key == key && Items(tv[i]) == Items(sv) + multiset{(key, x.value)}
    ensures var x := tv[i][pos.bucket].slots[pos.slot];
            Contents(tv) == Contents(tv[i := sv]) + multiset{(key, x.value)}
    ensures |Contents(tv)| == |Contents(tv[i := sv])| + 1
    ensures Routed(tv[i := sv], hash)
  {
    hide Items, Contents, SegId;
    var x := tv[i][pos.bucket].slots[pos.slot];
    ContentsDelete(tv, i, sv, (key, x.value));
    RoutedDelete(tv, hash, i, sv, (key, x.value));
  }

  lemma RemoveFromMap<K(!new), V(!new)>(tv: seq<seq<View<K, V>>>, hash: K -> u64, m: map<K, V>, i: nat, sv: seq<View<K, V>>,
                                        key: K, pos: SegmentPos)
    requires |tv| > 0 && i == SegId(hash(key), |tv|) && Routed(tv, hash) && AllComplete(tv, hash)
    requires Holds(Contents(tv), m)
    requires Shape(tv[i]) && TakenAt(tv[i], pos.bucket, pos.slot) && Shape(sv)
    requires var x := tv[i][pos.bucket].slots[pos.slot];
             x.key == key && Contents(tv) == Contents(tv[i := sv]) + multiset{(key, x.value)}
    requires Complete(tv[i], hash) ==> (Complete(sv, hash) <==> DeleteGuard(tv[i], hash(key), pos.bucket))
    ensures key in m && m[key] == tv[i][pos.bucket].slots[pos.slot].value
    ensures Holds(Contents(tv[i := sv]), m - {key})
    ensures AllComplete(tv[i := sv], hash) <==> KeyGuard(tv[i], hash(key), key)
  {
    hide Items, Contents, SegId, Complete, DeleteGuard, Holds, Routed;
    HoldsRemove(Contents(tv), Contents(tv[i := sv]), m, key, tv[i][pos.bucket].slots[pos.slot].value);
    OneSlot(tv, hash, m, key, pos);
    if AllComplete(tv[i := sv], hash) {
      assert Complete(tv[i := sv][i], hash);
    }
  }

  lemma RemoveOutcome<K(!new), V(!new)>(tv: seq<seq<View<K, V>>>, hash: K -> u64, m: map<K, V>, i: nat, sv: seq<View<K, V>>,
                                        key: K, pos: SegmentPos)
    requires |tv| > 0 && i == SegId(hash(key), |tv|) && Routed(tv, hash) && AllComplete(tv, hash) && Holds(Contents(tv), m)
    requires AllSound(tv, hash) && Shape(tv[i]) && TakenAt(tv[i], pos.bucket, pos.slot)
    requires var x := tv[i][pos.bucket].slots[pos.slot];
             x.key == key && Contents(tv) == Contents(tv[i := sv]) + multiset{(key, x.value)}
    requires sv == DeleteAt(tv[i], hash(key), pos.bucket, pos.slot) && Shape(sv) && Routed(tv[i := sv], hash)
    requires Complete(tv[i], hash) ==> (Complete(sv, hash) <==> DeleteGuard(tv[i], hash(key), pos.bucket))
    ensures key in m && m[key] == tv[i][pos.bucket].slots[pos.slot].value
    ensures RemovedFrom(tv, tv[i := sv], hash, m, key)
  {
    hide Contents, SegId, Routed, FindsAll, Holds, Complete, DeleteAt, DeleteGuard, AllSound, AllComplete, KeyGuard, KeyHarmless;
    RemoveFromMap(tv, hash, m, i, sv, key, pos);
    RemoveFinds(tv, hash, m, i, sv, key, pos);
  }

  lemma AbsentFinds<K(!new), V(!new)>(tv: seq<seq<View<K, V>>>, hash: K -> u64, m: map<K, V>)
    requires |tv| > 0 && Routed(tv, hash) && Holds(Contents(tv), m) && AllSeen(tv, hash)
    ensures FindsAll(tv, hash, m)
  {
    hide Contents, Routed, FindsAll, AllVisible, Holds;
    SeenIffFinds(tv, hash, m);
  }

  /** The other keys are all still found exactly if the removal was harmless. */
  lemma RemoveFinds<K(!new), V(!new)>(tv: seq<seq<View<K, V>>>, hash: K -> u64, m: map<K, V>, i: nat, sv: seq<View<K, V>>,
                                      key: K, pos: SegmentPos)
    requires |tv| > 0 && i == SegId(hash(key), |tv|) && Routed(tv, hash) && AllComplete(tv, hash) && Holds(Contents(tv), m)
    requires AllSound(tv, hash)
    requires Shape(tv[i]) && TakenAt(tv[i], pos.bucket, pos.slot) && tv[i][pos.bucket].slots[pos.slot].key == key
    requires sv == DeleteAt(tv[i], hash(key), pos.bucket, pos.slot)
    requires Routed(tv[i := sv], hash) && Holds(Contents(tv[i := sv]), m - {key})
    ensures FindsAll(tv[i := sv], hash, m - {key}) <==> KeyHarmless(tv[i], hash, key)
  {
    hide Contents, SegId, Routed, FindsAll, AllVisible, Holds, Sound, Complete, DeleteAt, Harmless, StashTags;
    var tv' := tv[i := sv];
    DeleteVisibleIff(tv[i], hash, pos.bucket, pos.slot);
    OneSlot(tv, hash, m, key, pos);
    CompleteSeen(tv, hash);
    assert AllSeen(tv', hash) <==> AllVisible(sv, hash) by {
      assert tv'[i] == sv;
    }
    SeenIffFinds(tv', hash, m - {key});
  }

  lemma RoutedDelete<K(!new), V(!new)>(tv: seq<seq<View<K, V>>>, hash: K -> u64, i: nat, sv: seq<View<K, V>>, x: (K, V))
    requires |tv| > 0 && i < |tv| && Routed(tv, hash) && Items(tv[i]) == Items(sv) + multiset{x}
    ensures Routed(tv[i := sv], hash)
  {
    hide Items, SegId;
    assert forall y :: y in Items(sv) ==> y in Items(tv[i]);
  }

  /** A key that is not stored is not in the map, and removing it is trivially guarded. */
  lemma AbsentKey<K(!new), V(!new)>(tv: seq<seq<View<K, V>>>, hash: K -> u64, m: map<K, V>, key: K)
    requires |tv| > 0 && Routed(tv, hash) && Holds(Contents(tv), m) && forall v :: (key, v) !in Contents(tv)
    requires Shape(tv[SegId(hash(key), |tv|)])
    ensures key !in m && m - {key} == m
    ensures var sv := tv[SegId(hash(key), |tv|)]; forall b, s :: TakenAt(sv, b, s) ==> sv[b].slots[s].key != key
  {
    hide Items, Contents, SegId;
    var sv := tv[SegId(hash(key), |tv|)];
    assert key in m ==> Contents(tv)[(key, m[key])] == 1;
    forall b, s | TakenAt(sv, b, s) ensures sv[b].slots[s].key != key {
      FoundIsStored(tv, SegId(hash(key), |tv|), b, s);
    }
  }

  /** In a table that is a map, a key sits in one slot only. */
  lemma OneSlot<K(!new), V(!new)>(tv: seq<seq<View<K, V>>>, hash: K -> u64, m: map<K, V>, key: K, pos: SegmentPos)
    requires |tv| > 0 && Routed(tv, hash) && Holds(Contents(tv), m)
    requires var sv := tv[SegId(hash(key), |tv|)];
             Shape(sv) && TakenAt(sv, pos.bucket, pos.slot) && sv[pos.bucket].slots[pos.slot].key == key
    ensures var sv := tv[SegId(hash(key), |tv|)];
            forall b, s :: TakenAt(sv, b, s) && sv[b].slots[s].key == key ==> (b, s) == (pos.bucket, pos.slot)
  {
    hide Items, Contents, SegId, Holds, Routed;
    var sv := tv[SegId(hash(key), |tv|)];
    forall b, s | TakenAt(sv, b, s) && sv[b].slots[s].key == key ensures (b, s) == (pos.bucket, pos.slot) {
      OneSlotEach(tv, hash, m, key, b, s, pos.bucket, pos.slot);
    }
  }

  lemma RoutedReplace<K(!new), V(!new)>(tv: seq<seq<View<K, V>>>, hash: K -> u64, i: nat, sv: seq<View<K, V>>, k: K, v: V, w: V)
    requires |tv| > 0 && i == SegId(hash(k), |tv|) && Routed(tv, hash)
    requires Items(sv) + multiset{(k, v)} == Items(tv[i]) + multiset{(k, w)}
    ensures Routed(tv[i := sv], hash)
  {
    hide Items, SegId;
    forall l, u | (l, u) in Items(sv) ensures l == k || (l, u) in Items(tv[i]) {
      assert (Items(sv) + multiset{(k, v)})[(l, u)] == (Items(tv[i]) + multiset{(k, w)})[(l, u)];
    }
  }
}
