/**
 A Dash bucket: twelve slots with fingerprints, and the metadata a home bucket keeps about its
 items in the stash (four packed pointers and a counter of untracked items).

 `Bucket` is the packed form the program stores; `View` is what it stands for. Every operation
 on the packed form is proved to be the corresponding plain operation on the view.
 */
module Buckets {
  import opened Common
  import opened Slots

  const NUM_STASH := 4

  datatype Slot<+K, +V> = Free | Taken(fp: byte, probing: bool, key: K, value: V)

  datatype Ptr = Ptr(fp: byte, stash: nat, probing: bool)

  datatype View<+K, +V> = View(slots: seq<Slot<K, V>>, ptrs: seq<Option<Ptr>>, overflow: nat, hasStash: bool)

  datatype Bucket<+K, +V> = Bucket(
    slots: SlotBitmap,
    fingerprints: seq<byte>,
    stashFps: seq<byte>,
    stashBusy: bv8,
    stashPos: bv8,
    stashProbe: bv8,
    overflow: byte,
    cells: seq<Option<(K, V)>>)

  // ---- Packed stash metadata ----

  function PtrBit(i: nat): bv8
    requires i < 4
  {
    if i == 0 then 1 else if i == 1 then 2 else if i == 2 then 4 else 8
  }

  predicate Flag(m: bv8, i: nat)
    requires i < 4
  {
    m & PtrBit(i) != 0
  }

  function WithFlag(m: bv8, i: nat, on: bool): bv8
    requires i < 4
  {
    if on then m | PtrBit(i) else m & !PtrBit(i)
  }

  predicate StashFlag(m: bv8) { m & 0x10 != 0 }
  function RaiseStashFlag(m: bv8): bv8 { m | 0x10 }
  function DropStashFlag(m: bv8): bv8 { m & !0x10 }
  predicate NoPointers(m: bv8) { m & 0x0F == 0 }

  function PosAt(m: bv8, i: nat): bv8
    requires i < 4
  {
    if i == 0 then m & 3 else if i == 1 then (m >> 2) & 3 else if i == 2 then (m >> 4) & 3 else (m >> 6) & 3
  }

  function WithPos(m: bv8, i: nat, id: bv8): bv8
    requires i < 4
  {
    if i == 0 then (m & 0xFC) | id
    else if i == 1 then (m & 0xF3) | (id << 2)
    else if i == 2 then (m & 0xCF) | (id << 4)
    else (m & 0x3F) | (id << 6)
  }

  function IdWord(id: nat): bv8
    requires id < 4
  {
    if id == 0 then 0 else if id == 1 then 1 else if id == 2 then 2 else 3
  }

  function IdOf(w: bv8): (id: nat)
    ensures id < 4
  {
    if w == 0 then 0 else if w == 1 then 1 else if w == 2 then 2 else 3
  }

  lemma FlagUpdate(m: bv8, i: nat, on: bool, j: nat)
    requires i < 4 && j < 4
    ensures Flag(WithFlag(m, i, on), j) <==> if j == i then on else Flag(m, j)
    ensures StashFlag(WithFlag(m, i, on)) == StashFlag(m)
  {}

  lemma StashFlagUpdate(m: bv8, j: nat)
    requires j < 4
    ensures Flag(RaiseStashFlag(m), j) == Flag(m, j) && Flag(DropStashFlag(m), j) == Flag(m, j)
    ensures StashFlag(RaiseStashFlag(m)) && !StashFlag(DropStashFlag(m))
  {}

  lemma NoPointersMeaning(m: bv8)
    ensures NoPointers(m) <==> !Flag(m, 0) && !Flag(m, 1) && !Flag(m, 2) && !Flag(m, 3)
  {}

  lemma PosUpdate(m: bv8, i: nat, id: nat, j: nat)
    requires i < 4 && id < 4 && j < 4
    ensures PosAt(WithPos(m, i, IdWord(id)), j) == if j == i then IdWord(id) else PosAt(m, j)
  {}

  lemma IdWordOf(m: bv8, i: nat, id: nat)
    requires i < 4 && id < 4
    ensures IdOf(IdWord(id)) == id
    ensures PosAt(m, i) == IdWord(id) <==> IdOf(PosAt(m, i)) == id
  {}

  // ---- What a bucket stands for ----

  /** Slots are initialised exactly where the bitmap says so. */
  predicate Valid<K, V>(b: Bucket<K, V>) {
    && |b.fingerprints| == 12 && |b.cells| == 12 && |b.stashFps| == 4
    && Consistent(b.slots)
    && forall i :: 0 <= i < 12 ==> (Has(b.slots.Busy(), i) <==> b.cells[i].Some?)
  }

  function SlotAt<K, V>(b: Bucket<K, V>, i: nat): Slot<K, V>
    requires Valid(b) && i < 12
  {
    if b.cells[i].Some?
    then Taken(b.fingerprints[i], Has(b.slots.ProbeMask(true), i), b.cells[i].value.0, b.cells[i].value.1)
    else Free
  }

  function PtrAt<K, V>(b: Bucket<K, V>, i: nat): Option<Ptr>
    requires Valid(b) && i < 4
  {
    if Flag(b.stashBusy, i) then Some(Ptr(b.stashFps[i], IdOf(PosAt(b.stashPos, i)), Flag(b.stashProbe, i))) else None
  }

  function ViewOf<K, V>(b: Bucket<K, V>): View<K, V>
    requires Valid(b)
  {
    View(seq(12, i requires 0 <= i < 12 => SlotAt(b, i)),
         seq(4, i requires 0 <= i < 4 => PtrAt(b, i)),
         b.overflow as nat, StashFlag(b.stashBusy))
  }

  /** The 4-bit count says "full" exactly when no slot is free. */
  lemma FullView<K, V>(b: Bucket<K, V>)
    requires Valid(b)
    ensures b.slots.IsFull() <==> forall i :: 0 <= i < 12 ==> ViewOf(b).slots[i].Taken?
  {
    hide Has, Consistent, SlotBitmap.Busy, SlotBitmap.ProbeMask, SlotBitmap.Size, SlotBitmap.IsFull;
    FullMeansNoneFree(b.slots);
    assert forall i :: 0 <= i < 12 ==> (ViewOf(b).slots[i].Taken? <==> Has(b.slots.Busy(), i));
  }

  // The operations on views.

  function FirstIdle(ptrs: seq<Option<Ptr>>, i: nat := 0): (r: nat)
    requires i <= |ptrs|
    ensures i <= r <= |ptrs|
    ensures r < |ptrs| ==> ptrs[r].None?
    ensures forall j :: i <= j < r ==> ptrs[j].Some?
    decreases |ptrs| - i
  {
    if i == |ptrs| || ptrs[i].None? then i else FirstIdle(ptrs, i + 1)
  }

  predicate Matches(p: Option<Ptr>, fp: byte, stash: nat) {
    p.Some? && p.value.fp == fp && p.value.stash == stash
  }

  function FirstMatch(ptrs: seq<Option<Ptr>>, fp: byte, stash: nat, i: nat := 0): (r: nat)
    requires i <= |ptrs|
    ensures i <= r <= |ptrs|
    ensures r < |ptrs| ==> Matches(ptrs[r], fp, stash)
    ensures forall j :: i <= j < r ==> !Matches(ptrs[j], fp, stash)
    decreases |ptrs| - i
  {
    if i == |ptrs| || Matches(ptrs[i], fp, stash) then i else FirstMatch(ptrs, fp, stash, i + 1)
  }

  predicate AllIdle(ptrs: seq<Option<Ptr>>) { forall i :: 0 <= i < |ptrs| ==> ptrs[i].None? }

  /** Note a new stash item: in the first idle pointer, or by counting it. */
  function SetPtr<K, V>(v: View<K, V>, p: Ptr): View<K, V> {
    var i := FirstIdle(v.ptrs);
    if i < |v.ptrs| then v.(ptrs := v.ptrs[i := Some(p)], hasStash := true)
    else v.(overflow := v.overflow + 1, hasStash := true)
  }

  function Settled<K, V>(v: View<K, V>): View<K, V> {
    if AllIdle(v.ptrs) && v.overflow == 0 then v.(hasStash := false) else v
  }

  /** Forget a stash item: clear the first equal pointer, or count one untracked item less. */
  function UnsetPtr<K, V>(v: View<K, V>, fp: byte, stash: nat): View<K, V> {
    var i := FirstMatch(v.ptrs, fp, stash);
    if i < |v.ptrs| then Settled(v.(ptrs := v.ptrs[i := None]))
    else if v.overflow > 0 then Settled(v.(overflow := v.overflow - 1))
    else v
  }

  function EmptyView<K, V>(): View<K, V> {
    View(seq(12, i => Free), seq(4, i => None), 0, false)
  }

  function New<K, V>(): (b: Bucket<K, V>) {
    Bucket(SlotBitmap(0), seq(12, i => 0), seq(4, i => 0), 0, 0, 0, 0, seq(12, i => None))
  }

  lemma NewView<K, V>()
    ensures Valid(New<K, V>()) && ViewOf(New<K, V>()) == EmptyView<K, V>()
  {
    EmptyConsistent();
    var b := New<K, V>();
    assert forall i :: 0 <= i < 4 ==> !Flag(b.stashBusy, i);
  }

  /** `find_matching` returns exactly the occupied slots with that fingerprint and ownership. */
  method FindMatching<K, V>(b: Bucket<K, V>, fp: byte, probe: bool) returns (mask: bv32)
    requires Valid(b)
    ensures And(mask, 0xFFFFF000) == 0
    ensures forall i :: 0 <= i < 12 ==>
              (Has(mask, i) <==> var s := ViewOf(b).slots[i]; s.Taken? && s.fp == fp && s.probing == probe)
  {
    hide Has, And, Or, Bit, Consistent, Flip, ProbeField, BusyField;
    var busy := b.slots.Busy();
    var ownership := b.slots.ProbeMask(probe);
    mask := 0;
    assert And(0, 0xFFFFF000) == 0 by { ZeroInRange(); }
    forall i | 0 <= i < 12 ensures !Has(0, i) { ZeroHasNoBit(i); }
    for i := 0 to 12
      invariant And(mask, 0xFFFFF000) == 0
      invariant forall j :: 0 <= j < 12 ==>
                  (Has(mask, j) <==> j < i && Has(busy, j) && Has(ownership, j) && b.fingerprints[j] == fp)
    {
      if Has(busy, i) && Has(ownership, i) && b.fingerprints[i] == fp {
        forall j | 0 <= j < 12 ensures Has(Or(mask, Bit(i)), j) <==> j == i || Has(mask, j) {
          HasOr(mask, i, j);
        }
        BitInRange(i);
        InRangeKept(mask, Bit(i));
        mask := Or(mask, Bit(i));
      }
    }
    forall i | 0 <= i < 12
      ensures Has(ownership, i) <==> Has(b.slots.ProbeMask(true), i) == probe
    {
      FreeMask(ProbeField(b.slots.word), i);
    }
  }

  lemma ZeroInRange()
    ensures And(0, 0xFFFFF000) == 0
  {}

  /** Inserting takes a free slot and changes that slot only; it fails exactly on a full bucket. */
  method TryInsert<K, V>(b: Bucket<K, V>, key: K, value: V, fp: byte, probing: bool)
    returns (slot: Option<nat>, b': Bucket<K, V>)
    requires Valid(b)
    ensures slot.None? <==> b.slots.IsFull()
    ensures slot.None? ==> b' == b
    ensures slot.Some? ==>
              && slot.value < 12 && Valid(b')
              && ViewOf(b).slots[slot.value] == Free
              && ViewOf(b') == ViewOf(b).(slots := ViewOf(b).slots[slot.value := Taken(fp, probing, key, value)])
  {
    hide Has, Consistent, SlotBitmap.SetSlot, SlotBitmap.Busy, SlotBitmap.ProbeMask, SlotBitmap.FindEmpty;
    FullMeansNoneFree(b.slots);
    slot := b.slots.FindEmpty();
    b' := b;
    if slot.Some? {
      var i := slot.value;
      SetSlotMeaning(b.slots, i, probing);
      b' := b.(fingerprints := b.fingerprints[i := fp],
               cells := b.cells[i := Some((key, value))],
               slots := b.slots.SetSlot(i, probing));
      assert forall j :: 0 <= j < 12 && j != i ==> SlotAt(b', j) == SlotAt(b, j);
      assert forall j :: 0 <= j < 4 ==> PtrAt(b', j) == PtrAt(b, j);
    }
  }

  /** Removing frees that slot only and hands back what it held. */
  method Remove<K, V>(b: Bucket<K, V>, i: nat) returns (entry: (K, V), b': Bucket<K, V>)
    requires Valid(b) && i < 12 && ViewOf(b).slots[i].Taken?
    ensures Valid(b') && ViewOf(b') == ViewOf(b).(slots := ViewOf(b).slots[i := Free])
    ensures entry == (ViewOf(b).slots[i].key, ViewOf(b).slots[i].value)
  {
    hide Has, Consistent, SlotBitmap.ClearSlot, SlotBitmap.Busy, SlotBitmap.ProbeMask;
    ClearSlotMeaning(b.slots, i);
    entry := b.cells[i].value;
    b' := b.(cells := b.cells[i := None], slots := b.slots.ClearSlot(i));
    assert forall j :: 0 <= j < 12 && j != i ==> SlotAt(b', j) == SlotAt(b, j);
    assert forall j :: 0 <= j < 4 ==> PtrAt(b', j) == PtrAt(b, j);
  }

  /** Overwriting a value in place changes that value only. */
  method Replace<K, V>(b: Bucket<K, V>, i: nat, value: V) returns (old': V, b': Bucket<K, V>)
    requires Valid(b) && i < 12 && ViewOf(b).slots[i].Taken?
    ensures Valid(b') && ViewOf(b') == ViewOf(b).(slots := ViewOf(b).slots[i := ViewOf(b).slots[i].(value := value)])
    ensures old' == ViewOf(b).slots[i].value
  {
    hide Has, Consistent, SlotBitmap.Busy, SlotBitmap.ProbeMask;
    old' := b.cells[i].value.1;
    b' := b.(cells := b.cells[i := Some((b.cells[i].value.0, value))]);
    assert forall j :: 0 <= j < 12 && j != i ==> SlotAt(b', j) == SlotAt(b, j);
    assert forall j :: 0 <= j < 4 ==> PtrAt(b', j) == PtrAt(b, j);
  }

  method SetStashPtr<K, V>(b: Bucket<K, V>, stash: nat, fp: byte, isProbing: bool) returns (b': Bucket<K, V>)
    requires Valid(b) && stash < 4 && ViewOf(b).overflow < 255
    ensures Valid(b') && ViewOf(b') == SetPtr(ViewOf(b), Ptr(fp, stash, isProbing))
  {
    hide Has, Consistent, Flag, WithFlag, StashFlag, RaiseStashFlag, PosAt, WithPos, IdWord, IdOf;
    var v := ViewOf(b);
    for i := 0 to 4
      invariant forall j :: 0 <= j < i ==> v.ptrs[j].Some?
    {
      if !Flag(b.stashBusy, i) {
        b' := b.(stashFps := b.stashFps[i := fp],
                 stashPos := WithPos(b.stashPos, i, IdWord(stash)),
                 stashBusy := RaiseStashFlag(WithFlag(b.stashBusy, i, true)),
                 stashProbe := WithFlag(b.stashProbe, i, isProbing));
        forall j | 0 <= j < 4 ensures PtrAt(b', j) == if j == i then Some(Ptr(fp, stash, isProbing)) else PtrAt(b, j) {
          FlagUpdate(b.stashBusy, i, true, j);
          StashFlagUpdate(WithFlag(b.stashBusy, i, true), j);
          FlagUpdate(b.stashProbe, i, isProbing, j);
          PosUpdate(b.stashPos, i, stash, j);
          IdWordOf(b.stashPos, i, stash);
        }
        StashFlagUpdate(WithFlag(b.stashBusy, i, true), 0);
        assert forall j :: 0 <= j < 12 ==> SlotAt(b', j) == SlotAt(b, j);
        assert v.ptrs[i].None?;
        assert FirstIdle(v.ptrs) == i;
        assert ViewOf(b').ptrs == v.ptrs[i := Some(Ptr(fp, stash, isProbing))];
        return;
      }
    }
    assert FirstIdle(v.ptrs) == 4;
    b' := b.(overflow := b.overflow + 1, stashBusy := RaiseStashFlag(b.stashBusy));
    forall j | 0 <= j < 4 ensures PtrAt(b', j) == PtrAt(b, j) {
      StashFlagUpdate(b.stashBusy, j);
    }
    StashFlagUpdate(b.stashBusy, 0);
    assert forall j :: 0 <= j < 12 ==> SlotAt(b', j) == SlotAt(b, j);
    assert ViewOf(b').ptrs == v.ptrs;
  }

  method UnsetStashPtr<K, V>(b: Bucket<K, V>, fp: byte, stash: nat) returns (found: bool, b': Bucket<K, V>)
    requires Valid(b) && stash < 4
    ensures Valid(b') && ViewOf(b') == UnsetPtr(ViewOf(b), fp, stash)
    ensures found <==> ViewOf(b).overflow > 0 || exists i :: 0 <= i < 4 && Matches(ViewOf(b).ptrs[i], fp, stash)
  {
    hide Has, Consistent, Flag, WithFlag, StashFlag, DropStashFlag, PosAt, IdWord, IdOf, NoPointers;
    var v := ViewOf(b);
    b' := b;
    for i := 0 to 4
      invariant forall j :: 0 <= j < i ==> !Matches(v.ptrs[j], fp, stash)
    {
      IdWordOf(b.stashPos, i, stash);
      if Flag(b.stashBusy, i) && b.stashFps[i] == fp && PosAt(b.stashPos, i) == IdWord(stash) {
        b' := b.(stashBusy := WithFlag(b.stashBusy, i, false));
        forall j | 0 <= j < 4 ensures PtrAt(b', j) == if j == i then None else PtrAt(b, j) {
          FlagUpdate(b.stashBusy, i, false, j);
        }
        FlagUpdate(b.stashBusy, i, false, 0);
        assert forall j :: 0 <= j < 12 ==> SlotAt(b', j) == SlotAt(b, j);
        assert ViewOf(b').ptrs == v.ptrs[i := None];
        assert ViewOf(b') == v.(ptrs := v.ptrs[i := None]);
        b' := Settle(b');
        assert Matches(v.ptrs[i], fp, stash);
        assert FirstMatch(v.ptrs, fp, stash) == i;
        return true, b';
      }
    }
    assert FirstMatch(v.ptrs, fp, stash) == 4;
    if b.overflow > 0 {
      b' := b.(overflow := b.overflow - 1);
      assert forall j :: 0 <= j < 12 ==> SlotAt(b', j) == SlotAt(b, j);
      assert forall j :: 0 <= j < 4 ==> PtrAt(b', j) == PtrAt(b, j);
      assert ViewOf(b') == v.(overflow := v.overflow - 1);
      b' := Settle(b');
      return true, b';
    }
    return false, b';
  }

  /** Drop the `has_stash` flag once neither pointers nor untracked items are left. */
  method Settle<K, V>(b: Bucket<K, V>) returns (b': Bucket<K, V>)
    requires Valid(b)
    ensures Valid(b') && ViewOf(b') == Settled(ViewOf(b))
  {
    hide Has, Consistent, Flag, StashFlag, DropStashFlag, PosAt, IdOf, NoPointers;
    NoPointersMeaning(b.stashBusy);
    var v := ViewOf(b);
    assert NoPointers(b.stashBusy) <==> AllIdle(v.ptrs) by {
      assert forall i :: 0 <= i < 4 ==> (v.ptrs[i].None? <==> !Flag(b.stashBusy, i));
      assert AllIdle(v.ptrs) ==> v.ptrs[0].None? && v.ptrs[1].None? && v.ptrs[2].None? && v.ptrs[3].None?;
    }
    b' := b;
    if NoPointers(b.stashBusy) && b.overflow == 0 {
      b' := b.(stashBusy := DropStashFlag(b.stashBusy));
      forall j | 0 <= j < 4 ensures PtrAt(b', j) == PtrAt(b, j) {
        StashFlagUpdate(b.stashBusy, j);
      }
      StashFlagUpdate(b.stashBusy, 0);
      assert forall j :: 0 <= j < 12 ==> SlotAt(b', j) == SlotAt(b, j);
    }
  }
}
