/** CRC-64 with the reflected Jones polynomial: bitwise definition, lookup table, composition over splits. */
module Crc64 {
  import opened Common

  const POLY: bv64 := 0xad93d23594c935a9

  // One machine operation each, so that every proof sees one operation at a time.
  function Xor(x: bv64, y: bv64): bv64 { x ^ y }
  function Half(x: bv64): bv64 { x >> 1 }
  predicate Odd(x: bv64) { x & 1 != 0 }
  function Low(x: bv64): bv64 { x & 0xff }
  function High(x: bv64): bv64 { x >> 8 }
  function HighBits(x: bv64): bv64 { x & 0xffff_ffff_ffff_ff00 }
  function Flip(x: bv64): bv64 { !x }
  function Widen(b: byte): bv64 { b as bv64 }

  lemma HalfXor(x: bv64, y: bv64)
    ensures Half(Xor(x, y)) == Xor(Half(x), Half(y))
  {}

  lemma OddXor(x: bv64, y: bv64)
    ensures Odd(Xor(x, y)) <==> Odd(x) != Odd(y)
  {}

  lemma HighXor(x: bv64, y: bv64)
    ensures High(Xor(x, y)) == Xor(High(x), High(y))
  {}

  lemma PolyLeft(x: bv64, y: bv64)
    ensures Xor(Xor(x, y), 0xad93d23594c935a9) == Xor(Xor(x, 0xad93d23594c935a9), y)
  {}

  lemma PolyRight(x: bv64, y: bv64)
    ensures Xor(Xor(x, y), 0xad93d23594c935a9) == Xor(x, Xor(y, 0xad93d23594c935a9))
  {}

  lemma PolyTwice(x: bv64, y: bv64)
    ensures Xor(Xor(x, 0xad93d23594c935a9), Xor(y, 0xad93d23594c935a9)) == Xor(x, y)
  {}

  lemma XorZero(x: bv64)
    ensures Xor(x, 0) == x
  {}

  lemma FlipTwice(x: bv64)
    ensures Flip(Flip(x)) == x
  {}

  lemma LowAndHigh(x: bv64)
    ensures x == Xor(Low(x), HighBits(x))
  {}

  lemma ByteHasNoHigh(b: byte)
    ensures High(Widen(b)) == 0
  {}

  lemma HighBitsEven(x: bv64)
    ensures !Odd(HighBits(x)) && !Odd(Half(HighBits(x))) && !Odd(Half(Half(HighBits(x)))) && !Odd(Half(Half(Half(HighBits(x)))))
  {}

  lemma HighBitsShift(x: bv64)
    ensures Half(Half(Half(Half(Half(Half(Half(Half(HighBits(x))))))))) == High(x)
  {}

  lemma FourHalves(x: bv64)
    ensures var y := Half(Half(Half(Half(HighBits(x)))));
            !Odd(y) && !Odd(Half(y)) && !Odd(Half(Half(y))) && !Odd(Half(Half(Half(y))))
  {}

  // ---- The bitwise definition ----

  /** One bit of the division by the polynomial. */
  function Shift(x: bv64): bv64 { if Odd(x) then Xor(Half(x), POLY) else Half(x) }

  function Shifts(x: bv64, n: nat): bv64
    decreases n
  {
    if n == 0 then x else Shifts(Shift(x), n - 1)
  }

  /** One byte, bit by bit. */
  function ByteStep(c: bv64, b: byte): bv64 { Shifts(Xor(c, Widen(b)), 8) }

  function Fold(c: bv64, data: bytes): bv64
    decreases |data|
  {
    if data == [] then c else Fold(ByteStep(c, data[0]), data[1..])
  }

  function Crc(crc: bv64, data: bytes): bv64 { Flip(Fold(Flip(crc), data)) }

  // ---- Splitting ----

  lemma {:induction false} FoldSplits(c: bv64, a: bytes, b: bytes)
    ensures Fold(c, a + b) == Fold(Fold(c, a), b)
    decreases |a|
  {
    hide ByteStep;
    if a == [] {
      assert a + b == b;
    } else {
      assert (a + b)[1..] == a[1..] + b;
      FoldSplits(ByteStep(c, a[0]), a[1..], b);
    }
  }

  /** A checksum may be carried on from any prefix: the saver and the loader cut the file differently. */
  lemma CrcSplits(crc: bv64, a: bytes, b: bytes)
    ensures Crc(crc, a + b) == Crc(Crc(crc, a), b)
  {
    hide Flip, ByteStep, Fold;
    FoldSplits(Flip(crc), a, b);
    FlipTwice(Fold(Flip(crc), a));
  }

  // ---- The table ----

  lemma ShiftXor(x: bv64, y: bv64)
    ensures Shift(Xor(x, y)) == Xor(Shift(x), Shift(y))
  {
    hide Xor, Half, Odd;
    HalfXor(x, y);
    OddXor(x, y);
    PolyLeft(Half(x), Half(y));
    PolyRight(Half(x), Half(y));
    PolyTwice(Half(x), Half(y));
  }

  lemma {:induction false} ShiftsXor(x: bv64, y: bv64, n: nat)
    ensures Shifts(Xor(x, y), n) == Xor(Shifts(x, n), Shifts(y, n))
    decreases n
  {
    hide Xor, Shift;
    if n > 0 {
      ShiftXor(x, y);
      ShiftsXor(Shift(x), Shift(y), n - 1);
    }
  }

  /** Eight shifts of a word without low bits only move it down. */
  lemma HighShifts(x: bv64)
    ensures Shifts(HighBits(x), 8) == High(x)
  {
    hide Half, Odd, High, HighBits, Shifts, Shift;
    HighBitsEven(x);
    FourHalves(x);
    HighBitsShift(x);
    var y := HighBits(x);
    EvenShift(y, 8);
    EvenShift(Half(y), 7);
    EvenShift(Half(Half(y)), 6);
    EvenShift(Half(Half(Half(y))), 5);
    var z := Half(Half(Half(Half(y))));
    EvenShift(z, 4);
    EvenShift(Half(z), 3);
    EvenShift(Half(Half(z)), 2);
    EvenShift(Half(Half(Half(z))), 1);
    NoShift(High(x));
  }

  lemma EvenShift(x: bv64, n: nat)
    requires n > 0 && !Odd(x)
    ensures Shifts(x, n) == Shifts(Half(x), n - 1)
  {
    hide Odd, Half, Xor;
  }

  function Indexed(k: int): bv64
    requires 0 <= k < 256
  {
    k as bv64
  }

  /** Every slot so far holds its index after eight shifts. */
  ghost predicate Filled(table: seq<bv64>) {
    |table| <= 256 && forall k :: 0 <= k < |table| ==> table[k] == Shifts(Indexed(k), 8)
  }

  ghost predicate IsTable(table: seq<bv64>) { |table| == 256 && Filled(table) }

  function Slot(c: bv64, b: byte): (k: int)
    ensures 0 <= k < 256
  {
    Low(Xor(c, Widen(b))) as int
  }

  lemma SlotValue(c: bv64, b: byte)
    ensures Indexed(Slot(c, b)) == Low(Xor(c, Widen(b)))
  {
    hide Low, Xor, Widen;
    assert Slot(c, b) == Low(Xor(c, Widen(b))) as int;
    IndexBack(Low(Xor(c, Widen(b))));
  }

  lemma IndexBack(x: bv64)
    requires x as int < 256
    ensures Indexed(x as int) == x
  {}

  /** The table-driven byte step is eight bitwise shift steps, for every state and byte. */
  lemma TableStep(table: seq<bv64>, c: bv64, b: byte)
    requires IsTable(table)
    ensures Xor(table[Slot(c, b)], High(c)) == ByteStep(c, b)
  {
    hide Xor, Half, Odd, High, HighBits, Low, Slot, Shifts, Widen, Indexed;
    var x := Xor(c, Widen(b));
    SlotValue(c, b);
    LowAndHigh(x);
    ShiftsXor(Low(x), HighBits(x), 8);
    HighShifts(x);
    HighXor(c, Widen(b));
    ByteHasNoHigh(b);
    XorZero(High(c));
  }

  lemma FilledMore(table: seq<bv64>, x: bv64)
    requires Filled(table) && |table| < 256 && x == Shifts(Indexed(|table|), 8)
    ensures Filled(table + [x])
  {
    hide Shifts, Indexed;
  }

  method BuildTable() returns (r: seq<bv64>)
    ensures IsTable(r)
  {
    hide Shifts, Indexed;
    var table := new bv64[256];
    var i: int := 0;
    while i < 256
      invariant 0 <= i <= 256 && Filled(table[..i])
    {
      ghost var done := table[..i];
      var crc := Indexed(i);
      var j := 0;
      while j < 8
        invariant 0 <= j <= 8 && Shifts(Indexed(i), 8) == Shifts(crc, 8 - j)
        invariant table[..i] == done
      {
        NextShift(crc, 8 - j);
        if crc & 1 != 0 {
          crc := (crc >> 1) ^ POLY;
        } else {
          crc := crc >> 1;
        }
        j := j + 1;
      }
      NoShift(crc);
      table[i] := crc;
      FilledMore(done, crc);
      assert table[..i + 1] == done + [crc];
      i := i + 1;
    }
    r := table[..];
  }

  lemma NextShift(x: bv64, n: nat)
    requires n > 0
    ensures Shifts(x, n) == Shifts(if x & 1 != 0 then (x >> 1) ^ POLY else x >> 1, n - 1)
  {}

  lemma NoShift(x: bv64)
    ensures Shifts(x, 0) == x
  {}

  /** The checksum of the source: one table lookup for each byte. */
  method Update(table: seq<bv64>, crc: bv64, data: bytes) returns (r: bv64)
    requires IsTable(table)
    ensures r == Crc(crc, data)
  {
    hide Xor, High, Slot, ByteStep, Flip, IsTable;
    var c := Flip(crc);
    var i := 0;
    assert data[..0] == [];
    while i < |data|
      invariant 0 <= i <= |data| && c == Fold(Flip(crc), data[..i])
    {
      TableStep(table, c, data[i]);
      TableLength(table);
      assert data[..i + 1] == data[..i] + [data[i]];
      FoldSplits(Flip(crc), data[..i], [data[i]]);
      assert Fold(c, [data[i]]) == ByteStep(c, data[i]) by { assert [data[i]][1..] == []; }
      c := Xor(table[Slot(c, data[i])], High(c));
      i := i + 1;
    }
    assert data[..i] == data;
    r := Flip(c);
  }

  lemma TableLength(table: seq<bv64>)
    requires IsTable(table)
    ensures |table| == 256
  {}
}
