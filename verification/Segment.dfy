/** A Dash segment as the program keeps it: a vector of packed buckets and an item counter. */
module Segments {
  import opened Common
  import opened Slots
  import opened Buckets
  import opened Placement

  datatype SegmentPos = SegmentPos(bucket: nat, slot: nat)

  predicate AllValid<K, V>(bs: seq<Bucket<K, V>>) {
    |bs| == 68 && forall b :: 0 <= b < 68 ==> Valid(bs[b])
  }

  /** What a vector of packed buckets stands for. */
  ghost function ViewsOf<K, V>(bs: seq<Bucket<K, V>>): (sv: seq<View<K, V>>)
    requires AllValid(bs)
    ensures |sv| == 68 && forall b :: 0 <= b < 68 ==> sv[b] == ViewOf(bs[b])
  {
    seq(68, b requires 0 <= b < 68 => ViewOf(bs[b]))
  }

  lemma ViewsShape<K, V>(bs: seq<Bucket<K, V>>)
    requires AllValid(bs)
    ensures Shape(ViewsOf(bs))
  {
    hide Valid, SlotAt, PtrAt;
  }

  lemma ViewsUpdate<K, V>(bs: seq<Bucket<K, V>>, b: nat, x: Bucket<K, V>)
    requires AllValid(bs) && b < 68 && Valid(x)
    ensures AllValid(bs[b := x]) && ViewsOf(bs[b := x]) == ViewsOf(bs)[b := ViewOf(x)]
  {
    hide ViewOf, Valid;
  }

  lemma NewViews<K, V>(bs: seq<Bucket<K, V>>)
    requires bs == seq(68, b => New<K, V>())
    ensures AllValid(bs) && ViewsOf(bs) == EmptySegment<K, V>()
  {
    hide ViewOf, Valid, New, EmptyView;
    NewView<K, V>();
  }

  /** No occupied slot has this fingerprint and key. */
  predicate Lacks<K(==), V>(v: View<K, V>, fp: byte, key: K) {
    forall s :: 0 <= s < |v.slots| && v.slots[s].Taken? && v.slots[s].fp == fp ==> v.slots[s].key != key
  }

  predicate LacksWith<K(==), V>(v: View<K, V>, fp: byte, probe: bool, key: K) {
    forall s :: 0 <= s < |v.slots| && v.slots[s].Taken? && v.slots[s].fp == fp && v.slots[s].probing == probe ==>
      v.slots[s].key != key
  }

  predicate PointsTo(p: Option<Ptr>, fp: byte, probe: bool) {
    p.Some? && p.value.fp == fp && p.value.probing == probe && p.value.stash < 4
  }

  class Segment<K(==, !new), V(!new)> {
    var buckets: seq<Bucket<K, V>>
    var itemCount: nat

    ghost function View(): (sv: seq<View<K, V>>)
      requires AllValid(buckets)
      reads this
      ensures Shape(sv)
    {
      ViewsShape(buckets);
      ViewsOf(buckets)
    }

    /** The facts every run keeps: slots match their bitmaps, keys are where they may be, the count is right. */
    ghost predicate Ready(hash: K -> u64)
      reads this
    {
      AllValid(buckets) && Sound(View(), hash) && itemCount == |Items(View())|
    }

    constructor (ghost hash: K -> u64)
      ensures AllValid(buckets) && Ready(hash) && View() == EmptySegment<K, V>()
      ensures Complete(View(), hash) && Items(View()) == multiset{}
    {
      hide Sound, Complete, Items, EmptySegment, New;
      buckets := seq(68, b => New<K, V>());
      itemCount := 0;
      new;
      NewViews(buckets);
      EmptySound<K, V>(hash);
    }

    method FindInBucket(b: nat, fp: byte, probe: bool, key: K) returns (r: Option<nat>)
      requires AllValid(buckets) && b < 68
      ensures r.Some? ==> r.value < 12
                          && View()[b].slots[r.value].Taken? && View()[b].slots[r.value].fp == fp
                          && View()[b].slots[r.value].probing == probe && View()[b].slots[r.value].key == key
      ensures r.None? ==> LacksWith(View()[b], fp, probe, key)
    {
      hide Has, And, AndNot, Bit, DropLowest, Consistent, SlotBitmap.Busy, SlotBitmap.ProbeMask, PtrAt, PosAt;
      var bucket := buckets[b];
      ghost var slots := View()[b].slots;
      var mask := FindMatching(bucket, fp, probe);
      ghost var start := mask;
      while mask != 0
        invariant And(mask, 0xFFFFF000) == 0
        invariant forall s :: 0 <= s < 12 ==> (Has(mask, s) ==> Has(start, s))
        invariant forall s :: 0 <= s < 12 && Has(start, s) && !Has(mask, s) ==> slots[s].key != key
        decreases PopCount(mask, 12)
      {
        NonzeroHasBit(mask);
        var slot := TrailingZeros(mask);
        if bucket.cells[slot].value.0 == key {
          return Some(slot);
        }
        var mask' := DropNext(mask, slot);
        mask := mask';
      }
      forall s | 0 <= s < 12 ensures !Has(0, s) { ZeroHasNoBit(s); }
      return None;
    }

    method FindInStashViaPtrs(b: nat, fp: byte, probe: bool, key: K) returns (r: Option<SegmentPos>)
      requires AllValid(buckets) && b < 68
      ensures r.Some? ==>
                && 64 <= r.value.bucket < 68 && TakenAt(View(), r.value.bucket, r.value.slot)
                && View()[r.value.bucket].slots[r.value.slot].fp == fp
                && View()[r.value.bucket].slots[r.value.slot].key == key
                && exists i :: 0 <= i < 4 && View()[b].ptrs[i] == Some(Ptr(fp, r.value.bucket - 64, probe))
      ensures r.None? ==> forall i :: 0 <= i < 4 && PointsTo(View()[b].ptrs[i], fp, probe) ==>
                            Lacks(View()[64 + View()[b].ptrs[i].value.stash], fp, key)
    {
      hide Has, Consistent, SlotBitmap.Busy, SlotBitmap.ProbeMask, Flag, PosAt;
      var bucket := buckets[b];
      ghost var sv := View();
      for i := 0 to 4
        invariant forall j :: 0 <= j < i && PointsTo(sv[b].ptrs[j], fp, probe) ==>
                    Lacks(sv[64 + sv[b].ptrs[j].value.stash], fp, key)
      {
        if !Flag(bucket.stashBusy, i) { continue; }
        if bucket.stashFps[i] != fp { continue; }
        if Flag(bucket.stashProbe, i) != probe { continue; }
        var stash := IdOf(PosAt(bucket.stashPos, i));
        var slot := ScanStash(64 + stash, fp, key);
        assert sv[b].ptrs[i] == Some(Ptr(fp, stash, probe));
        if slot.Some? {
          return Some(SegmentPos(64 + stash, slot.value));
        }
      }
      return None;
    }

    /** The inner loop of the pointer search: every busy slot of one stash bucket. */
    method ScanStash(b: nat, fp: byte, key: K) returns (r: Option<nat>)
      requires AllValid(buckets) && b < 68
      ensures r.Some? ==> TakenAt(View(), b, r.value)
                          && View()[b].slots[r.value].fp == fp && View()[b].slots[r.value].key == key
      ensures r.None? ==> Lacks(View()[b], fp, key)
    {
      hide Has, And, AndNot, Bit, DropLowest, Word, SlotBitmap.Busy, SlotBitmap.ProbeMask, PtrAt, PosAt;
      var stash := buckets[b];
      ghost var slots := View()[b].slots;
      var mask := stash.slots.Busy();
      ghost var start := mask;
      while mask != 0
        invariant And(mask, 0xFFFFF000) == 0
        invariant forall s :: 0 <= s < 12 ==> (Has(mask, s) ==> Has(start, s))
        invariant forall s :: 0 <= s < 12 && Has(start, s) && !Has(mask, s) ==> slots[s].fp != fp || slots[s].key != key
        decreases PopCount(mask, 12)
      {
        NonzeroHasBit(mask);
        var slot := TrailingZeros(mask);
        if stash.fingerprints[slot] == fp && stash.cells[slot].value.0 == key {
          return Some(slot);
        }
        var mask' := DropNext(mask, slot);
        mask := mask';
      }
      forall s | 0 <= s < 12 ensures !Has(0, s) { ZeroHasNoBit(s); }
      return None;
    }

    /** A lookup returns a visible slot with the key, and misses only when no visible slot has it. */
    method Find(h: u64, key: K, ghost hash: K -> u64) returns (r: Option<SegmentPos>)
      requires Ready(hash) && h == hash(key)
      ensures r.Some? ==>
                && VisibleAt(View(), h, r.value.bucket, r.value.slot)
                && View()[r.value.bucket].slots[r.value.slot].key == key
      ensures r.None? ==> forall b, s :: VisibleAt(View(), h, b, s) ==> View()[b].slots[s].key != key
    {
      hide HomeOf, FpOf, PtrTags, StashTags, Items, StashFlag, SlotAt, PtrAt, Valid;
      ghost var sv := View();
      var home, fp := HomeOf(h), FpOf(h);
      var next := NextOf(home);
      var slot := FindInBucket(home, fp, false, key);
      if slot.Some? {
        return Some(SegmentPos(home, slot.value));
      }
      slot := FindInBucket(next, fp, true, key);
      if slot.Some? {
        return Some(SegmentPos(next, slot.value));
      }
      if !StashFlag(buckets[home].stashBusy) {
        assert !sv[home].hasStash;
        return None;
      }
      if buckets[home].overflow > 0 {
        for i := 0 to 4
          invariant forall b :: 64 <= b < 64 + i ==> LacksWith(sv[b], fp, false, key)
        {
          slot := FindInBucket(64 + i, fp, false, key);
          if slot.Some? {
            return Some(SegmentPos(64 + i, slot.value));
          }
        }
        assert forall b, s :: VisibleAt(sv, h, b, s) && b >= 64 ==> !sv[b].slots[s].probing;
        return None;
      }
      r := FindInStashViaPtrs(home, fp, false, key);
      if r.Some? {
        PtrTagsMember(sv[home].ptrs, fp, r.value.bucket - 64);
        return;
      }
      forall b, s | 64 <= b && VisibleAt(sv, h, b, s) ensures sv[b].slots[s].key != key {
        PtrTagsMember(sv[home].ptrs, fp, b - 64);
        var i :| 0 <= i < 4 && Matches(sv[home].ptrs[i], fp, b - 64);
        assert TrackedBy(sv[home], StashTags(sv, hash, home));
        assert PointsTo(sv[home].ptrs[i], fp, false);
      }
      r := FindInStashViaPtrs(next, fp, true, key);
      assert r.None? by {
        assert TrackedBy(sv[next], StashTags(sv, hash, next));
      }
    }

    /** Put a value into a slot of bucket `b`, keeping the view in step. */
    method Put(b: nat, key: K, value: V, fp: byte, probing: bool) returns (slot: nat)
      requires AllValid(buckets) && b < 68 && !buckets[b].slots.IsFull()
      modifies this`buckets
      ensures AllValid(buckets) && slot < 12 && old(View())[b].slots[slot] == Free
      ensures View() == WithSlot(old(View()), b, slot, Taken(fp, probing, key, value))
    {
      hide Valid, ViewOf, SlotBitmap.IsFull, ViewsOf;
      var s, bucket := TryInsert(buckets[b], key, value, fp, probing);
      ViewsUpdate(buckets, b, bucket);
      assert View()[b] == ViewOf(buckets[b]);
      buckets := buckets[b := bucket];
      slot := s.value;
    }

    /**
     Insert a key that is not stored: into its home bucket, else the next one, else the first
     stash bucket with room. Fails exactly when all six are full.
     */
    method InsertNew(key: K, value: V, h: u64, ghost hash: K -> u64) returns (r: Option<SegmentPos>)
      requires Ready(hash) && h == hash(key)
      modifies this
      ensures AllValid(buckets) && Ready(hash)
      ensures r.None? <==> NoRoom(old(View()), h)
      ensures r.None? ==> View() == old(View())
      ensures r.Some? ==> InsertedAs(old(View()), h, key, value, r.value, View())
      ensures old(Complete(View(), hash)) ==> Complete(View(), hash)
    {
      hide HomeOf, FpOf, Items, Sound, Complete, Valid, ViewOf, SlotBitmap.IsFull, SetPtr, ViewsOf;
      ghost var sv := View();
      var home, fp := HomeOf(h), FpOf(h);
      var next := NextOf(home);
      FullView(buckets[home]);
      FullView(buckets[next]);
      if !buckets[home].slots.IsFull() {
        var slot := Put(home, key, value, fp, false);
        itemCount := itemCount + 1;
        InsertSound(sv, hash, key, value, home, slot);
        return Some(SegmentPos(home, slot));
      }
      if !buckets[next].slots.IsFull() {
        var slot := Put(next, key, value, fp, true);
        itemCount := itemCount + 1;
        InsertSound(sv, hash, key, value, next, slot);
        return Some(SegmentPos(next, slot));
      }
      for i := 0 to 4
        invariant buckets == old(buckets) && itemCount == old(itemCount)
        invariant forall b :: 64 <= b < 64 + i ==> Full(sv[b])
      {
        FullView(buckets[64 + i]);
        if !buckets[64 + i].slots.IsFull() {
          var slot := Put(64 + i, key, value, fp, false);
          ghost var sv1 := View();
          OverflowFits(sv, hash, home);
          var bucket := SetStashPtr(buckets[home], i, fp, false);
          ViewsUpdate(buckets, home, bucket);
          assert sv1[home] == ViewOf(buckets[home]);
          buckets := buckets[home := bucket];
          itemCount := itemCount + 1;
          InsertSound(sv, hash, key, value, 64 + i, slot);
          return Some(SegmentPos(64 + i, slot));
        }
      }
      return None;
    }

    /** Remove the entry at a position and, for a stash item, make home and next bucket forget it. */
    method Delete(pos: SegmentPos, h: u64, ghost hash: K -> u64) returns (entry: (K, V))
      requires Ready(hash) && TakenAt(View(), pos.bucket, pos.slot)
      requires h == hash(View()[pos.bucket].slots[pos.slot].key)
      modifies this
      ensures AllValid(buckets) && Ready(hash)
      ensures View() == DeleteAt(old(View()), h, pos.bucket, pos.slot)
      ensures var x := old(View())[pos.bucket].slots[pos.slot]; entry == (x.key, x.value)
      ensures old(Items(View())) == Items(View()) + multiset{entry}
      ensures old(Complete(View(), hash)) ==> (Complete(View(), hash) <==> DeleteGuard(old(View()), h, pos.bucket))
    {
      hide HomeOf, FpOf, Items, Sound, Complete, Valid, ViewOf, UnsetPtr, ViewsOf, DeleteGuard;
      ghost var sv := View();
      var b, s := pos.bucket, pos.slot;
      DeleteSound(sv, hash, b, s);
      var e, bucket := Remove(buckets[b], s);
      entry := e;
      ViewsUpdate(buckets, b, bucket);
      buckets := buckets[b := bucket];
      assert View() == WithSlot(sv, b, s, Free);
      if b >= 64 {
        var home, fp, stash := HomeOf(h), FpOf(h), b - 64;
        var _, homeBucket := UnsetStashPtr(buckets[home], fp, stash);
        ViewsUpdate(buckets, home, homeBucket);
        assert View()[home] == ViewOf(buckets[home]);
        buckets := buckets[home := homeBucket];
        var next := NextOf(home);
        var _, nextBucket := UnsetStashPtr(buckets[next], fp, stash);
        ViewsUpdate(buckets, next, nextBucket);
        assert View()[next] == ViewOf(buckets[next]);
        buckets := buckets[next := nextBucket];
      }
      itemCount := itemCount - 1;
    }

    /** The occupied positions, bucket by bucket and slot by slot: the order of iteration. */
    method Positions() returns (ps: seq<SegmentPos>)
      requires AllValid(buckets)
      ensures forall i :: 0 <= i < |ps| ==> TakenAt(View(), ps[i].bucket, ps[i].slot)
      ensures forall b, s :: TakenAt(View(), b, s) ==> SegmentPos(b, s) in ps
      ensures forall i, j :: 0 <= i < j < |ps| ==> Before(ps[i], ps[j])
    {
      hide Valid, ViewOf, ViewsOf;
      ghost var sv := View();
      ps := [];
      for b := 0 to 68
        invariant forall i :: 0 <= i < |ps| ==> TakenAt(sv, ps[i].bucket, ps[i].slot) && ps[i].bucket < b
        invariant forall c, s :: TakenAt(sv, c, s) && c < b ==> SegmentPos(c, s) in ps
        invariant forall i, j :: 0 <= i < j < |ps| ==> Before(ps[i], ps[j])
      {
        var slots := BusySlots(buckets[b]);
        var here := seq(|slots|, i requires 0 <= i < |slots| => SegmentPos(b, slots[i]));
        forall s | TakenAt(sv, b, s) ensures SegmentPos(b, s) in ps + here {
          assert s in slots;
          var i :| 0 <= i < |slots| && slots[i] == s;
          assert here[i] == SegmentPos(b, s);
        }
        ps := ps + here;
      }
    }

    method EntryAt(pos: SegmentPos) returns (entry: (K, V))
      requires AllValid(buckets) && TakenAt(View(), pos.bucket, pos.slot)
      ensures var x := View()[pos.bucket].slots[pos.slot]; entry == (x.key, x.value)
    {
      entry := buckets[pos.bucket].cells[pos.slot].value;
    }

    /** Overwrite the value at a position. */
    method Overwrite(pos: SegmentPos, value: V, ghost hash: K -> u64) returns (previous: V)
      requires Ready(hash) && TakenAt(View(), pos.bucket, pos.slot)
      modifies this
      ensures AllValid(buckets) && Ready(hash) && itemCount == old(itemCount)
      ensures var x := old(View())[pos.bucket].slots[pos.slot];
              && previous == x.value
              && View() == WithSlot(old(View()), pos.bucket, pos.slot, x.(value := value))
              && Items(View()) + multiset{(x.key, x.value)} == old(Items(View())) + multiset{(x.key, value)}
      ensures Complete(View(), hash) <==> old(Complete(View(), hash))
    {
      hide Items, Sound, Complete, Valid, ViewOf, ViewsOf;
      ghost var sv := View();
      ReplaceSound(sv, hash, pos.bucket, pos.slot, value);
      ghost var x := sv[pos.bucket].slots[pos.slot];
      ghost var sv' := WithSlot(sv, pos.bucket, pos.slot, x.(value := value));
      assert |Items(sv') + multiset{(x.key, x.value)}| == |Items(sv) + multiset{(x.key, value)}|;
      var p, bucket := Replace(buckets[pos.bucket], pos.slot, value);
      previous := p;
      ViewsUpdate(buckets, pos.bucket, bucket);
      assert sv[pos.bucket] == ViewOf(buckets[pos.bucket]);
      buckets := buckets[pos.bucket := bucket];
    }
  }

  /** Iteration order. */
  predicate Before(p: SegmentPos, q: SegmentPos) {
    p.bucket < q.bucket || (p.bucket == q.bucket && p.slot < q.slot)
  }

  /** The set bits of a mask in ascending order, by repeatedly taking the lowest one. */
  method BitsOf(start: bv32) returns (slots: seq<nat>)
    requires And(start, 0xFFFFF000) == 0
    ensures forall i :: 0 <= i < |slots| ==> slots[i] < 12 && Has(start, slots[i])
    ensures forall s :: 0 <= s < 12 && Has(start, s) ==> s in slots
    ensures forall i, j :: 0 <= i < j < |slots| ==> slots[i] < slots[j]
  {
    hide *;
    var mask := start;
    slots := [];
    while mask != 0
      invariant And(mask, 0xFFFFF000) == 0
      invariant forall s :: 0 <= s < 12 ==> (Has(start, s) <==> Has(mask, s) || s in slots)
      invariant forall i :: 0 <= i < |slots| ==> slots[i] < 12 && Has(start, slots[i])
      invariant forall i, l :: 0 <= i < |slots| && 0 <= l < 12 && Has(mask, l) ==> slots[i] < l
      invariant forall i, j :: 0 <= i < j < |slots| ==> slots[i] < slots[j]
      decreases PopCount(mask, 12)
    {
      NonzeroHasBit(mask);
      var slot := TrailingZeros(mask);
      var mask' := DropNext(mask, slot);
      assert forall i :: 0 <= i < |slots| ==> slots[i] < slot;
      assert forall s :: s in slots + [slot] <==> s in slots || s == slot;
      slots := slots + [slot];
      mask := mask';
    }
    forall s | 0 <= s < 12 ensures !Has(0, s) { ZeroHasNoBit(s); }
  }

  /** The busy slots of a bucket in ascending order. */
  method BusySlots<K, V>(b: Bucket<K, V>) returns (slots: seq<nat>)
    requires Valid(b)
    ensures forall i :: 0 <= i < |slots| ==> slots[i] < 12 && ViewOf(b).slots[slots[i]].Taken?
    ensures forall s :: 0 <= s < 12 && ViewOf(b).slots[s].Taken? ==> s in slots
    ensures forall i, j :: 0 <= i < j < |slots| ==> slots[i] < slots[j]
  {
    hide Has, And, Word, PopCount, SlotBitmap.Busy, SlotBitmap.ProbeMask, PtrAt, PosAt;
    slots := BitsOf(b.slots.Busy());
    assert forall i :: 0 <= i < 12 ==> (ViewOf(b).slots[i].Taken? <==> Has(b.slots.Busy(), i));
  }

  predicate Full<K, V>(v: View<K, V>) { forall s :: 0 <= s < |v.slots| ==> v.slots[s].Taken? }

  /** The bucket an insertion uses: home, else next, else the first stash bucket with room. */
  function Target<K, V>(sv: seq<View<K, V>>, h: u64): (b: nat)
    requires Shape(sv)
    ensures b < 68
  {
    var home := HomeOf(h);
    if !Full(sv[home]) then home
    else if !Full(sv[NextOf(home)]) then NextOf(home)
    else if !Full(sv[64]) then 64
    else if !Full(sv[65]) then 65
    else if !Full(sv[66]) then 66
    else 67
  }

  /** A free slot of the target bucket took the entry, and the home bucket tracks it if it went to the stash. */
  ghost predicate InsertedAs<K, V>(sv: seq<View<K, V>>, h: u64, key: K, value: V, pos: SegmentPos, sv': seq<View<K, V>>)
    requires Shape(sv)
  {
    && pos.bucket == Target(sv, h) && pos.slot < 12 && sv[pos.bucket].slots[pos.slot] == Free
    && sv' == InsertAt(sv, h, key, value, pos.bucket, pos.slot)
    && Items(sv') == Items(sv) + multiset{(key, value)}
  }

  /** Home, next and all four stash buckets are full. */
  predicate NoRoom<K, V>(sv: seq<View<K, V>>, h: u64)
    requires |sv| == 68
  {
    Full(sv[HomeOf(h)]) && Full(sv[NextOf(HomeOf(h))]) && forall b :: 64 <= b < 68 ==> Full(sv[b])
  }

  /** One step of a mask loop: the lowest bit goes, the rest stays. */
  method DropNext(mask: bv32, slot: nat) returns (mask': bv32)
    requires And(mask, 0xFFFFF000) == 0 && slot < 12 && Has(mask, slot)
    requires forall l :: 0 <= l < slot ==> !Has(mask, l)
    ensures And(mask', 0xFFFFF000) == 0
    ensures forall s :: 0 <= s < 12 ==> (Has(mask', s) <==> s != slot && Has(mask, s))
    ensures PopCount(mask', 12) < PopCount(mask, 12)
  {
    hide Has, And, AndNot, Bit, DropLowest, PopCount;
    DropLowestBit(mask, slot);
    mask' := DropLowest(mask);
    forall s | 0 <= s < 12 ensures Has(mask', s) <==> s != slot && Has(mask, s) {
      HasAndNot(mask, slot, s);
    }
    BitInRange(slot);
    InRangeKept(mask, Bit(slot));
    PopCountChange(mask', mask, slot, 12);
  }
}
