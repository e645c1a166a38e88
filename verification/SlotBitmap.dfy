/**
 The packed word of a Dash bucket: bits 0-3 count the occupied slots, bits 4-17 mark the slots
 that are only hosted ("probing"), bits 18-31 mark the occupied slots.

 The word operations are named, one per line of the source, so that the proofs below can
 reason about each in isolation.
 */
module Slots {
  import opened Common

  const NUM_SLOTS := 12

  /** `1 << i` for the twelve slot indices. */
  function Bit(i: nat): bv32
    requires i < 12
  {
    if i == 0 then 0x1 else if i == 1 then 0x2 else if i == 2 then 0x4 else if i == 3 then 0x8
    else if i == 4 then 0x10 else if i == 5 then 0x20 else if i == 6 then 0x40 else if i == 7 then 0x80
    else if i == 8 then 0x100 else if i == 9 then 0x200 else if i == 10 then 0x400 else 0x800
  }

  function And(a: bv32, b: bv32): bv32 { a & b }
  function Or(a: bv32, b: bv32): bv32 { a | b }
  function AndNot(a: bv32, b: bv32): bv32 { a & !b }

  predicate Has(mask: bv32, i: nat)
    requires i < 12
  {
    And(mask, Bit(i)) != 0
  }

  /** `trailing_zeros` of a mask that has one of the twelve slot bits set. */
  function TrailingZeros(mask: bv32, from: nat := 0): (i: nat)
    requires exists j :: from <= j < 12 && Has(mask, j)
    ensures from <= i < 12 && Has(mask, i)
    ensures forall j :: from <= j < i ==> !Has(mask, j)
    decreases 12 - from
  {
    hide Has;
    if Has(mask, from) then from else TrailingZeros(mask, from + 1)
  }

  function DropLowest(mask: bv32): bv32 { mask & (mask - 1) }

  function FreeOf(busy: bv32): bv32 { (!busy) & 0xFFF }
  function Flip(raw: bv32): bv32 { raw ^ 0xFFF }

  function BusyField(w: bv32): bv32 { w >> 18 }
  function ProbeField(w: bv32): bv32 { (w >> 4) & 0xFFF }
  function SizeField(w: bv32): bv32 { w & 0xF }

  function MarkBusy(w: bv32, e: bv32): bv32 { w | (e << 18) }
  function MarkFree(w: bv32, e: bv32): bv32 { w & !(e << 18) }
  function MarkProbing(w: bv32, e: bv32): bv32 { w | (e << 4) }
  function MarkOwned(w: bv32, e: bv32): bv32 { w & !(e << 4) }
  function CountUp(w: bv32): bv32 { (w & 0xFFFFFFF0) | ((w & 0xF) + 1) }
  function CountDown(w: bv32): bv32 { (w & 0xFFFFFFF0) | ((w & 0xF) - 1) }

  datatype SlotBitmap = SlotBitmap(word: bv32) {

    function Busy(): bv32 { BusyField(word) }

    function ProbeMask(probe: bool): bv32 {
      if probe then ProbeField(word) else Flip(ProbeField(word))
    }

    function Size(): bv32 { SizeField(word) }

    predicate IsFull() { Size() == 12 }

    function FindEmpty(): (r: Option<nat>)
      ensures r.Some? ==> r.value < 12 && !Has(Busy(), r.value)
    {
      hide Has, FreeOf;
      var free := FreeOf(Busy());
      if free == 0 then None
      else
        SomeBit(free, Busy());
        FreeMask(Busy(), TrailingZeros(free));
        Some(TrailingZeros(free))
    }

    function SetSlot(i: nat, probing: bool): SlotBitmap
      requires i < 12
    {
      var w := MarkBusy(word, Bit(i));
      SlotBitmap(CountUp(if probing then MarkProbing(w, Bit(i)) else MarkOwned(w, Bit(i))))
    }

    function ClearSlot(i: nat): SlotBitmap
      requires i < 12
    {
      SlotBitmap(CountDown(MarkOwned(MarkFree(word, Bit(i)), Bit(i))))
    }
  }

  // ---- Single word operations ----

  lemma OrSame(m: bv32, e: bv32)
    requires e != 0
    ensures And(Or(m, e), e) != 0
  {}

  lemma OrDisjoint(m: bv32, e: bv32, d: bv32)
    requires And(e, d) == 0
    ensures And(Or(m, e), d) == And(m, d)
  {}

  lemma AndNotSame(m: bv32, e: bv32)
    ensures And(AndNot(m, e), e) == 0
  {}

  lemma AndNotDisjoint(m: bv32, e: bv32, d: bv32)
    requires And(e, d) == 0
    ensures And(AndNot(m, e), d) == And(m, d)
  {}

  lemma DistinctBits(i: nat, j: nat)
    requires i < 12 && j < 12 && i != j
    ensures And(Bit(i), Bit(j)) == 0
  {}

  lemma BitNonzero(i: nat)
    requires i < 12
    ensures Bit(i) != 0
  {}

  lemma BitInRange(i: nat)
    requires i < 12
    ensures And(Bit(i), 0xFFFFF000) == 0
  {}

  lemma BitSingle(i: nat)
    requires i < 12
    ensures DropLowest(Bit(i)) == 0
  {}

  lemma HasOr(m: bv32, i: nat, j: nat)
    requires i < 12 && j < 12
    ensures Has(Or(m, Bit(i)), j) <==> j == i || Has(m, j)
  {
    hide And, Or, Bit;
    if i == j {
      BitNonzero(i);
      OrSame(m, Bit(i));
    } else {
      DistinctBits(i, j);
      OrDisjoint(m, Bit(i), Bit(j));
    }
  }

  lemma HasAndNot(m: bv32, i: nat, j: nat)
    requires i < 12 && j < 12
    ensures Has(AndNot(m, Bit(i)), j) <==> j != i && Has(m, j)
  {
    hide And, AndNot, Bit;
    if i == j {
      AndNotSame(m, Bit(i));
    } else {
      DistinctBits(i, j);
      AndNotDisjoint(m, Bit(i), Bit(j));
    }
  }

  lemma FreeSingle(m: bv32, e: bv32)
    requires e != 0 && DropLowest(e) == 0 && And(e, 0xFFFFF000) == 0
    ensures And(FreeOf(m), e) != 0 <==> And(m, e) == 0
  {}

  lemma FlipSingle(m: bv32, e: bv32)
    requires e != 0 && DropLowest(e) == 0 && And(e, 0xFFFFF000) == 0
    ensures And(Flip(m), e) != 0 <==> And(m, e) == 0
  {}

  lemma FreeMask(m: bv32, j: nat)
    requires j < 12
    ensures Has(FreeOf(m), j) <==> !Has(m, j)
    ensures Has(Flip(m), j) <==> !Has(m, j)
  {
    hide And, Bit, DropLowest, FreeOf, Flip;
    BitNonzero(j);
    BitSingle(j);
    BitInRange(j);
    FreeSingle(m, Bit(j));
    FlipSingle(m, Bit(j));
  }

  lemma NonzeroHasBit(mask: bv32)
    requires And(mask, 0xFFFFF000) == 0 && mask != 0
    ensures exists j :: 0 <= j < 12 && Has(mask, j)
  {
    assert Has(mask, 0) || Has(mask, 1) || Has(mask, 2) || Has(mask, 3) || Has(mask, 4) || Has(mask, 5)
        || Has(mask, 6) || Has(mask, 7) || Has(mask, 8) || Has(mask, 9) || Has(mask, 10) || Has(mask, 11);
  }

  lemma FreeInRange(m: bv32)
    ensures And(FreeOf(m), 0xFFFFF000) == 0
  {}

  lemma SomeBit(free: bv32, busy: bv32)
    requires free == FreeOf(busy) && free != 0
    ensures exists j :: 0 <= j < 12 && Has(free, j)
  {
    FreeInRange(busy);
    NonzeroHasBit(free);
  }

  lemma ZeroHasNoBit(j: nat)
    requires j < 12
    ensures !Has(0, j)
  {}

  /** All bits below a single bit, and the bit above it. */
  function Under(d: bv32): bv32 { d - 1 }
  function Above(d: bv32): bv32 { d << 1 }

  lemma LowBitsClear(mask: bv32, i: nat)
    requires i < 12 && forall l :: 0 <= l < i ==> !Has(mask, l)
    ensures And(mask, Under(Bit(i))) == 0
  {
    hide And, Bit, DropLowest, Under, Above;
    if i > 0 {
      assert !Has(mask, i - 1);
      LowBitsClear(mask, i - 1);
      NextBit(i);
      LowBitStep(mask, Bit(i - 1));
    } else {
      NothingBelow(mask);
    }
  }

  lemma NothingBelow(mask: bv32)
    ensures And(mask, Under(Bit(0))) == 0
  {
    assert Under(Bit(0)) == 0;
  }

  lemma NextBit(i: nat)
    requires 0 < i < 12
    ensures Bit(i) == Above(Bit(i - 1))
    ensures DropLowest(Bit(i - 1)) == 0
  {}

  lemma LowBitStep(mask: bv32, d: bv32)
    requires DropLowest(d) == 0 && And(mask, Under(d)) == 0 && And(mask, d) == 0
    ensures And(mask, Under(Above(d))) == 0
  {}

  lemma DropSingle(mask: bv32, e: bv32)
    requires DropLowest(e) == 0 && And(mask, Under(e)) == 0 && And(mask, e) != 0
    ensures DropLowest(mask) == AndNot(mask, e)
  {}

  /** `mask & (mask - 1)` drops exactly the lowest set bit. */
  lemma DropLowestBit(mask: bv32, i: nat)
    requires i < 12 && Has(mask, i) && forall l :: 0 <= l < i ==> !Has(mask, l)
    ensures DropLowest(mask) == AndNot(mask, Bit(i))
  {
    hide Bit, DropLowest, AndNot, And, Under;
    LowBitsClear(mask, i);
    BitSingle(i);
    DropSingle(mask, Bit(i));
  }

  // The three fields of the word do not disturb each other while the count stays in its four bits.

  lemma MarkBusyField(w: bv32, e: bv32)
    requires And(e, 0xFFFFF000) == 0
    ensures BusyField(MarkBusy(w, e)) == Or(BusyField(w), e)
  {}

  lemma MarkFreeField(w: bv32, e: bv32)
    requires And(e, 0xFFFFF000) == 0
    ensures BusyField(MarkFree(w, e)) == AndNot(BusyField(w), e)
  {}

  lemma MarkBusyOthers(w: bv32, e: bv32)
    ensures ProbeField(MarkBusy(w, e)) == ProbeField(w) && SizeField(MarkBusy(w, e)) == SizeField(w)
  {}

  lemma MarkFreeOthers(w: bv32, e: bv32)
    ensures ProbeField(MarkFree(w, e)) == ProbeField(w) && SizeField(MarkFree(w, e)) == SizeField(w)
  {}

  lemma MarkProbingFields(w: bv32, e: bv32)
    requires And(e, 0xFFFFF000) == 0
    ensures BusyField(MarkProbing(w, e)) == BusyField(w) && SizeField(MarkProbing(w, e)) == SizeField(w)
    ensures ProbeField(MarkProbing(w, e)) == Or(ProbeField(w), e)
  {}

  lemma MarkOwnedFields(w: bv32, e: bv32)
    requires And(e, 0xFFFFF000) == 0
    ensures BusyField(MarkOwned(w, e)) == BusyField(w) && SizeField(MarkOwned(w, e)) == SizeField(w)
    ensures ProbeField(MarkOwned(w, e)) == AndNot(ProbeField(w), e)
  {}

  lemma CountUpFields(w: bv32)
    requires SizeField(w) < 15
    ensures BusyField(CountUp(w)) == BusyField(w)
    ensures ProbeField(CountUp(w)) == ProbeField(w)
    ensures SizeField(CountUp(w)) == SizeField(w) + 1
  {}

  lemma CountDownFields(w: bv32)
    requires SizeField(w) > 0
    ensures BusyField(CountDown(w)) == BusyField(w)
    ensures ProbeField(CountDown(w)) == ProbeField(w)
    ensures SizeField(CountDown(w)) == SizeField(w) - 1
  {}

  // ---- What the word stands for ----

  /** The numbers a bucket's counter can hold, as words. */
  function Word(n: nat): bv32
    requires n <= 12
  {
    if n == 0 then 0 else if n == 1 then 1 else if n == 2 then 2 else if n == 3 then 3 else if n == 4 then 4
    else if n == 5 then 5 else if n == 6 then 6 else if n == 7 then 7 else if n == 8 then 8 else if n == 9 then 9
    else if n == 10 then 10 else if n == 11 then 11 else 12
  }

  lemma WordStep(n: nat)
    requires n < 12
    ensures Word(n) < 15 && Word(n + 1) > 0
    ensures Word(n + 1) == Word(n) + 1
    ensures Word(n) == Word(n + 1) - 1
  {}

  lemma WordFull(n: nat)
    requires n <= 12
    ensures Word(n) == 12 <==> n == 12
  {}

  /** The number of set bits among the first `n`. */
  function PopCount(mask: bv32, n: nat): (c: nat)
    requires n <= 12
    ensures c <= n
  {
    if n == 0 then 0 else PopCount(mask, n - 1) + if Has(mask, n - 1) then 1 else 0
  }

  lemma {:induction false} PopCountChange(a: bv32, b: bv32, i: nat, n: nat)
    requires i < 12 && n <= 12
    requires forall j :: 0 <= j < n && j != i ==> (Has(a, j) <==> Has(b, j))
    requires !Has(a, i) && Has(b, i)
    ensures PopCount(b, n) == PopCount(a, n) + if i < n then 1 else 0
  {
    hide Has;
    if n > 0 {
      PopCountChange(a, b, i, n - 1);
    }
  }

  lemma {:induction false} PopCountExtremes(a: bv32, n: nat)
    requires n <= 12
    ensures PopCount(a, n) == n <==> forall j :: 0 <= j < n ==> Has(a, j)
    ensures PopCount(a, n) == 0 <==> forall j :: 0 <= j < n ==> !Has(a, j)
  {
    hide Has;
    if n > 0 {
      PopCountExtremes(a, n - 1);
      if forall j :: 0 <= j < n - 1 ==> Has(a, j) {
      }
      if PopCount(a, n) == n {
        assert Has(a, n - 1);
      }
    }
  }

  /** The counter agrees with the busy bits, hosted slots are busy, and no stray bit is set. */
  predicate Consistent(m: SlotBitmap) {
    && And(m.Busy(), 0xFFFFF000) == 0
    && m.Size() == Word(PopCount(m.Busy(), 12))
    && forall j :: 0 <= j < 12 && Has(m.ProbeMask(true), j) ==> Has(m.Busy(), j)
  }

  lemma EmptyConsistent()
    ensures Consistent(SlotBitmap(0))
    ensures forall j :: 0 <= j < 12 ==> !Has(SlotBitmap(0).Busy(), j)
  {
    var m := SlotBitmap(0);
    assert m.Busy() == 0 && m.ProbeMask(true) == 0 && m.Size() == Word(0);
    assert And(m.Busy(), 0xFFFFF000) == 0;
    hide Has, SlotBitmap.Busy, SlotBitmap.ProbeMask, SlotBitmap.Size, Word;
    forall j | 0 <= j < 12 ensures !Has(0, j) {
      ZeroHasNoBit(j);
    }
    PopCountExtremes(m.Busy(), 12);
  }

  /** Being full, having no free bit and every slot being busy are the same thing. */
  lemma FullMeansNoneFree(m: SlotBitmap)
    requires Consistent(m)
    ensures m.IsFull() <==> m.FindEmpty().None?
    ensures m.IsFull() <==> forall j :: 0 <= j < 12 ==> Has(m.Busy(), j)
  {
    hide Has, Word, PopCount, FreeOf, And, SlotBitmap.Busy, SlotBitmap.Size;
    var free := FreeOf(m.Busy());
    PopCountExtremes(m.Busy(), 12);
    WordFull(PopCount(m.Busy(), 12));
    forall j | 0 <= j < 12 ensures Has(free, j) <==> !Has(m.Busy(), j) {
      FreeMask(m.Busy(), j);
    }
    if free != 0 {
      SomeBit(free, m.Busy());
    } else {
      forall j | 0 <= j < 12 ensures !Has(free, j) {
        ZeroHasNoBit(j);
      }
    }
  }

  lemma InRangeKept(m: bv32, e: bv32)
    requires And(m, 0xFFFFF000) == 0 && And(e, 0xFFFFF000) == 0
    ensures And(Or(m, e), 0xFFFFF000) == 0 && And(AndNot(m, e), 0xFFFFF000) == 0
  {}

  /** Occupying a free slot sets its two flags, adds one to the count and touches no other slot. */
  lemma SetSlotMeaning(m: SlotBitmap, i: nat, probing: bool)
    requires Consistent(m) && i < 12 && !Has(m.Busy(), i)
    ensures var m' := m.SetSlot(i, probing);
            && Consistent(m')
            && (forall j :: 0 <= j < 12 ==>
                  && (Has(m'.Busy(), j) <==> j == i || Has(m.Busy(), j))
                  && (Has(m'.ProbeMask(true), j) <==> if j == i then probing else Has(m.ProbeMask(true), j)))
  {
    hide Has, Word, And, Or, AndNot, Bit, PopCount;
    hide MarkBusy, MarkProbing, MarkOwned, CountUp, BusyField, ProbeField, SizeField;
    var m', e := m.SetSlot(i, probing), Bit(i);
    var w := MarkBusy(m.word, e);
    PopCountExtremes(m.Busy(), 12);
    WordStep(PopCount(m.Busy(), 12));
    BitInRange(i);
    MarkBusyField(m.word, e);
    MarkBusyOthers(m.word, e);
    MarkProbingFields(w, e);
    MarkOwnedFields(w, e);
    CountUpFields(if probing then MarkProbing(w, e) else MarkOwned(w, e));
    InRangeKept(m.Busy(), e);
    forall j | 0 <= j < 12
      ensures Has(m'.Busy(), j) <==> j == i || Has(m.Busy(), j)
      ensures Has(m'.ProbeMask(true), j) <==> if j == i then probing else Has(m.ProbeMask(true), j)
    {
      HasOr(m.Busy(), i, j);
      HasOr(m.ProbeMask(true), i, j);
      HasAndNot(m.ProbeMask(true), i, j);
    }
    PopCountChange(m.Busy(), m'.Busy(), i, 12);
  }

  /** Freeing a busy slot clears its two flags, takes one from the count and touches no other slot. */
  lemma ClearSlotMeaning(m: SlotBitmap, i: nat)
    requires Consistent(m) && i < 12 && Has(m.Busy(), i)
    ensures var m' := m.ClearSlot(i);
            && Consistent(m')
            && (forall j :: 0 <= j < 12 ==>
                  && (Has(m'.Busy(), j) <==> j != i && Has(m.Busy(), j))
                  && (Has(m'.ProbeMask(true), j) <==> j != i && Has(m.ProbeMask(true), j)))
  {
    hide Has, Word, And, AndNot, Bit, PopCount;
    hide MarkFree, MarkOwned, CountDown, BusyField, ProbeField, SizeField;
    var m', e := m.ClearSlot(i), Bit(i);
    PopCountExtremes(m.Busy(), 12);
    WordStep(PopCount(m.Busy(), 12) - 1);
    BitInRange(i);
    MarkFreeField(m.word, e);
    MarkFreeOthers(m.word, e);
    MarkOwnedFields(MarkFree(m.word, e), e);
    CountDownFields(MarkOwned(MarkFree(m.word, e), e));
    InRangeKept(m.Busy(), e);
    forall j | 0 <= j < 12
      ensures Has(m'.Busy(), j) <==> j != i && Has(m.Busy(), j)
      ensures Has(m'.ProbeMask(true), j) <==> j != i && Has(m.ProbeMask(true), j)
    {
      HasAndNot(m.Busy(), i, j);
      HasAndNot(m.ProbeMask(true), i, j);
    }
    PopCountChange(m'.Busy(), m.Busy(), i, 12);
  }
}
