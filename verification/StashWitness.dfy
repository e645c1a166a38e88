/**
 A run of one segment in which deleting a key makes another key unfindable although it is still
 stored: the delete also clears a pointer of the bucket after the home bucket.
 */
module StashWitness {
  import opened Common
  import opened Collect
  import opened Buckets
  import opened Placement
  import opened Segments

  function Identity(k: u64): u64 { k }

  lemma LowByte(q: nat, r: nat)
    requires r < 256
    ensures (256 * q + r) / 256 == q && (256 * q + r) % 256 == r
  {}

  lemma LowSix(q: nat, r: nat)
    requires r < 64
    ensures (64 * q + r) % 64 == r
  {}

  lemma KeyParts(home: nat, fp: nat, j: nat)
    requires home < 64 && fp < 256 && j < 100
    ensures var n := 16384 * j + 256 * home + fp; n < 0x1_0000_0000_0000_0000 && (n / 256) % 64 == home && n % 256 == fp
  {
    LowByte(64 * j + home, fp);
    LowSix(j, home);
  }

  /** The j-th key with this home bucket and fingerprint. */
  function Key(home: nat, fp: nat, j: nat): (k: u64)
    requires home < 64 && fp < 256 && j < 100
    ensures HomeOf(k) == home && FpOf(k) == fp as byte
  {
    KeyParts(home, fp, j);
    (16384 * j + 256 * home + fp) as u64
  }

  /** A bucket full of owned keys with fingerprint 0 that tracks nothing in the stash. */
  predicate Stuffed(v: View<u64, int>) {
    v.slots != [] && v == EmptyView<u64, int>().(slots := v.slots) && Full(v) && Plain(v)
  }

  predicate Plain(v: View<u64, int>) {
    |v.slots| == 12 && forall s :: 0 <= s < 12 && v.slots[s].Taken? ==> v.slots[s].fp == 0 && !v.slots[s].probing
  }

  lemma {:induction false} FullCount(slots: seq<Slot<u64, int>>)
    ensures |FlatMap(SlotItems<u64, int>, slots)| <= |slots|
    ensures |FlatMap(SlotItems<u64, int>, slots)| == |slots| <==> forall s :: 0 <= s < |slots| ==> slots[s].Taken?
  {
    if slots != [] {
      FullCount(slots[1..]);
      assert forall s :: 0 < s < |slots| ==> slots[s] == slots[1..][s - 1];
      if forall s :: 0 <= s < |slots[1..]| ==> slots[1..][s].Taken? {
        assert forall s :: 0 < s < |slots| ==> slots[s].Taken?;
      }
    }
  }

  lemma CountStep(v: View<u64, int>, s: nat, x: Slot<u64, int>)
    requires s < |v.slots| && v.slots[s] == Free && x.Taken?
    ensures |BucketItems(v.(slots := v.slots[s := x]))| == |BucketItems(v)| + 1
  {
    hide FlatMap;
    FlatMapUpdate(SlotItems<u64, int>, v.slots, s, x);
    assert SlotItems(v.slots[s]) == multiset{};
    assert BucketItems(v.(slots := v.slots[s := x])) == BucketItems(v) + SlotItems(x) by {
      assert BucketItems(v.(slots := v.slots[s := x])) + multiset{} == BucketItems(v.(slots := v.slots[s := x]));
    }
  }

  /** A bucket with j owned keys of fingerprint 0 that tracks nothing in the stash. */
  ghost predicate Partly(v: View<u64, int>, j: nat) {
    v == EmptyView<u64, int>().(slots := v.slots) && Plain(v) && |BucketItems(v)| == j
  }

  lemma PartlyEmpty()
    ensures Partly(EmptyView<u64, int>(), 0)
  {
    FlatMapEmpty(SlotItems<u64, int>, EmptyView<u64, int>().slots);
  }

  lemma PartlyStep(v: View<u64, int>, j: nat)
    requires Partly(v, j)
    ensures Full(v) <==> j == 12
    ensures forall s, k, x :: 0 <= s < 12 && v.slots[s] == Free ==>
              Partly(v.(slots := v.slots[s := Taken(0, false, k, x)]), j + 1)
  {
    hide BucketItems;
    FullSlots(v);
    forall s, k: u64, x: int | 0 <= s < 12 && v.slots[s] == Free
      ensures Partly(v.(slots := v.slots[s := Taken(0, false, k, x)]), j + 1)
    {
      CountStep(v, s, Taken(0, false, k, x));
    }
  }

  lemma FullSlots(v: View<u64, int>)
    requires |v.slots| == 12
    ensures Full(v) <==> |BucketItems(v)| == 12
  {
    FullCount(v.slots);
  }

  /** Insert twelve keys of one home bucket into its empty bucket. */
  method Stuff(seg: Segment<u64, int>, home: nat)
    requires AllValid(seg.buckets) && seg.Ready(Identity) && home < 62 && seg.View()[home] == EmptyView<u64, int>()
    modifies seg
    ensures AllValid(seg.buckets) && seg.Ready(Identity)
    ensures Stuffed(seg.View()[home]) && seg.View() == old(seg.View())[home := seg.View()[home]]
  {
    hide Items, AllValid, HomeOf, FpOf, Partly, EmptyView, Full, Segment.Ready, Segment.View, InsertedAs, Key;
    ghost var sv := seg.View();
    PartlyEmpty();
    for j := 0 to 12
      invariant AllValid(seg.buckets) && seg.Ready(Identity)
      invariant seg.View() == sv[home := seg.View()[home]]
      invariant Partly(seg.View()[home], j)
    {
      ghost var sv1 := seg.View();
      PartlyStep(sv1[home], j);
      var k := Key(home, 0, j);
      var r := seg.InsertNew(k, 0, k, Identity);
      StaysHome(sv1, home, j, k, r.value, seg.View());
    }
    PartlyStep(seg.View()[home], 12);
    Stuffing(seg.View()[home]);
  }

  lemma StaysHome(sv: seq<View<u64, int>>, home: nat, j: nat, k: u64, pos: SegmentPos, sv': seq<View<u64, int>>)
    requires Shape(sv) && home < 62 && HomeOf(k) == home && FpOf(k) == 0
    requires Partly(sv[home], j) && !Full(sv[home]) && InsertedAs(sv, k, k, 0, pos, sv')
    ensures Shape(sv') && sv' == sv[home := sv'[home]] && Partly(sv'[home], j + 1)
  {
    hide Items, HomeOf, FpOf, Partly, EmptyView, Full;
    PartlyStep(sv[home], j);
    InsertShape(sv, k, k, 0, pos.bucket, pos.slot);
    assert sv'[home] == sv[home].(slots := sv[home].slots[pos.slot := Taken(0, false, k, 0)]);
  }

  lemma Stuffing(v: View<u64, int>)
    requires Partly(v, 12) && Full(v)
    ensures Stuffed(v)
  {}

  const A: u64 := Key(0, 7, 0)
  const B: u64 := Key(1, 7, 0)

  lemma Hashes()
    ensures HomeOf(A) == 0 && FpOf(A) == 7 && HomeOf(B) == 1 && FpOf(B) == 7 && A != B
  {}

  function Tracking(v: View<u64, int>): View<u64, int> {
    v.(ptrs := [Some(Ptr(7, 0, false)), None, None, None], hasStash := true)
  }

  lemma TrackFirst(v: View<u64, int>)
    requires Stuffed(v)
    ensures SetPtr(v, Ptr(7, 0, false)) == Tracking(v)
    ensures UnsetPtr(Tracking(v), 7, 0) == v
  {
    assert FirstIdle(v.ptrs) == 0;
    var w := Tracking(v);
    assert FirstMatch(w.ptrs, 7, 0) == 0;
    assert w.ptrs[0 := None] == v.ptrs;
  }

  /** A key of a full home and full next bucket goes to the first stash bucket and is tracked. */
  lemma GoesToStash(sv: seq<View<u64, int>>, k: u64, value: int, pos: SegmentPos, sv': seq<View<u64, int>>)
    requires Shape(sv) && HomeOf(k) < 2 && FpOf(k) == 7 && Stuffed(sv[HomeOf(k)]) && Full(sv[HomeOf(k) + 1]) && !Full(sv[64])
    requires InsertedAs(sv, k, k, value, pos, sv')
    ensures pos.bucket == 64 && pos.slot < 12 && sv[64].slots[pos.slot] == Free
    ensures sv'[HomeOf(k)] == Tracking(sv[HomeOf(k)])
    ensures sv'[64] == sv[64].(slots := sv[64].slots[pos.slot := Taken(7, false, k, value)])
    ensures Shape(sv') && forall b :: 0 <= b < 68 && b != HomeOf(k) && b != 64 ==> sv'[b] == sv[b]
  {
    hide HomeOf, FpOf, SetPtr, Items, EmptyView;
    TrackFirst(sv[HomeOf(k)]);
    InsertShape(sv, k, k, value, pos.bucket, pos.slot);
  }

  /** Without pointers or overflow the second bucket sees neither its own slots nor the stash hold B. */
  lemma CannotSee(sv: seq<View<u64, int>>, b: int, s: int)
    requires Shape(sv) && Stuffed(sv[1]) && Stuffed(sv[2])
    ensures !VisibleAt(sv, B, b, s)
  {
    hide HomeOf, FpOf, PtrTags;
    Hashes();
    assert !sv[1].hasStash;
  }

  /**
   Fill three adjacent buckets, put one key of the first and one of the second into the stash with
   equal fingerprints, and delete the first: the second is still stored, but a lookup misses it.
   */
  method LoseKey() returns (seg: Segment<u64, int>, before: Option<SegmentPos>, after: Option<SegmentPos>)
    ensures fresh(seg) && AllValid(seg.buckets) && seg.Ready(Identity)
    ensures before.Some? && after.None?
    ensures (B, 2) in Items(seg.View()) && !Full(seg.View()[64])
  {
    hide Items, Sound, AllValid, ViewsOf, HomeOf, FpOf, Complete, PtrTags, StashTags, Stuffed, Full;
    hide InsertedAs, DeleteAt, DeleteGuard, Segment.Ready, Segment.View, EmptySegment, VisibleAt;
    Hashes();
    seg := ThreeFull();
    ghost var sv0 := seg.View();
    EmptyHasRoom();
    StuffedIsFull(sv0);
    var posA := seg.InsertNew(A, 1, A, Identity);
    ghost var sv1 := seg.View();
    GoesToStash(sv0, A, 1, posA.value, sv1);
    StillRoom(posA.value.slot, sv1[64], Taken(7, false, A, 1));
    var posB := seg.InsertNew(B, 2, B, Identity);
    ghost var sv2 := seg.View();
    GoesToStash(sv1, B, 2, posB.value, sv2);
    before := seg.Find(B, B, Identity);
    ghost var x := Taken(7, false, B, 2);
    SeesStash(sv2, B, x, posB.value.slot);
    var _ := seg.Delete(posA.value, A, Identity);
    ghost var sv3 := seg.View();
    Forgets(sv0[1], sv2, A, posA.value.slot, posB.value.slot, x, sv3);
    after := seg.Find(B, B, Identity);
    forall b, s ensures !VisibleAt(sv3, B, b, s) {
      CannotSee(sv3, b, s);
    }
  }

  lemma EmptyHasRoom()
    ensures !Full(EmptyView<u64, int>())
  {
    assert EmptyView<u64, int>().slots[0] == Free;
  }

  lemma StuffedIsFull(sv: seq<View<u64, int>>)
    requires Shape(sv)
    ensures forall b :: 0 <= b < 68 && Stuffed(sv[b]) ==> Full(sv[b])
  {}

  lemma StillRoom(s: nat, v: View<u64, int>, x: Slot<u64, int>)
    requires s < 12 && v.slots == EmptyView<u64, int>().slots[s := x]
    ensures !Full(v)
  {
    var r := if s == 0 then 1 else 0;
    assert EmptyView<u64, int>().slots[r] == Free;
    assert v.slots[r] == Free;
  }

  lemma SeesStash(sv: seq<View<u64, int>>, k: u64, x: Slot<u64, int>, s: nat)
    requires Shape(sv) && HomeOf(k) == 1 && FpOf(k) == 7 && s < 12 && sv[64].slots[s] == x && x.Taken? && x.fp == 7
    requires sv[1].hasStash && sv[1].ptrs[0] == Some(Ptr(7, 0, false))
    ensures VisibleAt(sv, k, 64, s)
  {
    hide HomeOf, FpOf, PtrTags;
    PtrTagsMember(sv[1].ptrs, 7, 0);
    assert Matches(sv[1].ptrs[0], 7, 0);
  }

  /** Deleting A makes the second bucket forget its pointer to B, which stays in the stash. */
  lemma Forgets(v: View<u64, int>, sv: seq<View<u64, int>>, k: u64, s: nat, t: nat, x: Slot<u64, int>, sv': seq<View<u64, int>>)
    requires Shape(sv) && HomeOf(k) == 0 && FpOf(k) == 7
    requires s < 12 && t < 12 && s != t && Stuffed(v) && sv[1] == Tracking(v)
    requires sv[64].slots[t] == x && x.Taken? && sv' == DeleteAt(sv, k, 64, s)
    ensures Shape(sv') && sv'[1] == v && sv'[2] == sv[2]
    ensures (x.key, x.value) in Items(sv') && !Full(sv'[64])
  {
    hide HomeOf, FpOf, Items, UnsetPtr, EmptyView;
    TrackFirst(v);
    DeleteShape(sv, k, 64, s);
    assert sv'[64].slots[s] == Free;
    assert TakenAt(sv', 64, t) && sv'[64].slots[t] == x;
    ItemsMember(sv', (x.key, x.value));
  }

  method ThreeFull() returns (seg: Segment<u64, int>)
    ensures fresh(seg) && AllValid(seg.buckets) && seg.Ready(Identity)
    ensures Stuffed(seg.View()[0]) && Stuffed(seg.View()[1]) && Stuffed(seg.View()[2])
    ensures seg.View()[64] == EmptyView<u64, int>()
  {
    hide Items, AllValid, Complete, Stuffed, Segment.Ready, Segment.View, EmptyView;
    seg := new Segment<u64, int>(Identity);
    Stuff(seg, 0);
    Stuff(seg, 1);
    Stuff(seg, 2);
  }

  /**
   What the table's insert does next with the lost key: it looks the key up, misses it, and adds it
   as a new one. There is room in the stash, so the key is then stored twice.
   */
  method StoreTwice() returns (seg: Segment<u64, int>, missed: Option<SegmentPos>, placed: Option<SegmentPos>)
    ensures AllValid(seg.buckets) && seg.Ready(Identity)
    ensures missed.None? && placed.Some?
    ensures (B, 2) in Items(seg.View()) && (B, 3) in Items(seg.View())
  {
    hide Items, AllValid, Full, InsertedAs, Segment.Ready, Segment.View;
    var before;
    seg, before, missed := LoseKey();
    ghost var sv := seg.View();
    RoomInStash(sv);
    placed := seg.InsertNew(B, 3, B, Identity);
    BothStored(sv, placed.value, seg.View());
  }

  lemma RoomInStash(sv: seq<View<u64, int>>)
    requires |sv| == 68 && !Full(sv[64])
    ensures !NoRoom(sv, B)
  {
    hide Full, HomeOf;
  }

  lemma BothStored(sv: seq<View<u64, int>>, pos: SegmentPos, sv': seq<View<u64, int>>)
    requires Shape(sv) && (B, 2) in Items(sv) && InsertedAs(sv, B, B, 3, pos, sv')
    ensures (B, 2) in Items(sv') && (B, 3) in Items(sv')
  {
    hide Items, HomeOf, FpOf, Full;
  }
}
