/**
 The checksum as division of polynomials over the two-element field: coefficients are Booleans, the
 highest power first.
 */
module CrcDivision {
  import opened Common
  import opened Crc64
  import Collect

  type Poly = seq<bool>

  /** x^64 and then the coefficients of x^63 down to x^0: the divisor of the checksum. */
  const POLYNOMIAL: Poly :=
    [true]
    + [true, false, false, true, false, true, false, true]
    + [true, false, true, false, true, true, false, false]
    + [true, false, false, true, false, false, true, true]
    + [false, false, true, false, true, false, false, true]
    + [true, false, true, false, true, true, false, false]
    + [false, true, false, false, true, false, true, true]
    + [true, true, false, false, true, false, false, true]
    + [true, false, true, true, false, true, false, true]

  function Zeros(n: nat): (r: Poly)
    ensures |r| == n && forall i :: 0 <= i < n ==> !r[i]
  {
    seq(n, i => false)
  }

  function Plus(a: Poly, b: Poly): (r: Poly)
    requires |a| == |b|
    ensures |r| == |a| && forall i :: 0 <= i < |a| ==> (r[i] <==> a[i] != b[i])
  {
    seq(|a|, i requires 0 <= i < |a| => a[i] != b[i])
  }

  function Not(a: Poly): (r: Poly)
    ensures |r| == |a| && forall i :: 0 <= i < |a| ==> (r[i] <==> !a[i])
  {
    seq(|a|, i requires 0 <= i < |a| => !a[i])
  }

  /** The product, term by term. */
  function Times(q: Poly, p: Poly): (r: Poly)
    requires p != []
    ensures |r| == |q| + |p| - 1
    decreases |q|
  {
    if q == [] then Zeros(|p| - 1)
    else Plus((if q[0] then p else Zeros(|p|)) + Zeros(|q| - 1), [false] + Times(q[1..], p))
  }

  /** The lowest `n` bits of a word, the lowest first. */
  function Word(x: bv64, n: nat): (r: Poly)
    ensures |r| == n
    decreases n
  {
    if n == 0 then [] else [Odd(x)] + Word(Half(x), n - 1)
  }

  /** The bits of a message in the order they are summed. */
  function Bits(data: bytes): (r: Poly)
    ensures |r| == 8 * |data|
  {
    if data == [] then [] else Word(Widen(data[0]), 8) + Bits(data[1..])
  }

  // ---- Sums ----

  lemma PlusJoined(a: Poly, b: Poly, c: Poly, d: Poly)
    requires |a| == |b| && |c| == |d|
    ensures Plus(a + c, b + d) == Plus(a, b) + Plus(c, d)
  {}

  lemma PlusZeros(a: Poly)
    ensures Plus(a, Zeros(|a|)) == a && Plus(Zeros(|a|), a) == a
  {}

  lemma PlusAssoc(a: Poly, b: Poly, c: Poly)
    requires |a| == |b| == |c|
    ensures Plus(Plus(a, b), c) == Plus(a, Plus(b, c))
  {}

  lemma ZerosJoined(m: nat, n: nat)
    ensures Zeros(m) + Zeros(n) == Zeros(m + n)
  {}

  // ---- Words ----

  function Halves(x: bv64, n: nat): bv64
    decreases n
  {
    if n == 0 then x else Halves(Half(x), n - 1)
  }

  lemma {:induction false} WordSplits(x: bv64, m: nat, n: nat)
    ensures Word(x, m + n) == Word(x, m) + Word(Halves(x, m), n)
    decreases m
  {
    hide Half, Odd;
    if m > 0 {
      WordSplits(Half(x), m - 1, n);
    }
  }

  lemma {:induction false} HalvesAdd(x: bv64, m: nat, n: nat)
    ensures Halves(x, m + n) == Halves(Halves(x, m), n)
    decreases m
  {
    hide Half;
    if m > 0 {
      HalvesAdd(Half(x), m - 1, n);
    }
  }

  lemma EightHalves(x: bv64)
    ensures Halves(x, 8) == High(x)
  {
    hide Halves;
    HalvesSteps(x);
    EightShifts(x);
  }

  lemma HalvesSteps(x: bv64)
    ensures Halves(x, 8) == Half(Half(Half(Half(Half(Half(Half(Half(x))))))))
  {
    hide Half;
  }

  lemma EightShifts(x: bv64)
    ensures Half(Half(Half(Half(Half(Half(Half(Half(x)))))))) == High(x)
  {}

  lemma AllHigh(x: bv64)
    ensures High(High(High(High(High(High(High(High(x)))))))) == 0
  {}

  /** Nothing is left of a word after 64 halves. */
  lemma AllHalves(x: bv64)
    ensures Halves(x, 64) == 0
  {
    hide Halves, High;
    HalvesBytes(x, 8);
    AllHigh(x);
    assert Highs(x, 8) == High(High(High(High(High(High(High(High(x))))))));
  }

  function Highs(x: bv64, n: nat): bv64
    decreases n
  {
    if n == 0 then x else Highs(High(x), n - 1)
  }

  lemma {:induction false} HalvesBytes(x: bv64, n: nat)
    ensures Halves(x, 8 * n) == Highs(x, n)
    decreases n
  {
    hide High;
    if n == 0 {
      assert Halves(x, 0) == x;
    } else {
      hide Halves;
      HalvesAdd(x, 8, 8 * (n - 1));
      EightHalves(x);
      HalvesBytes(High(x), n - 1);
    }
  }

  lemma {:induction false} NoBits(n: nat)
    ensures Word(0, n) == Zeros(n)
    decreases n
  {
    if n > 0 {
      assert Half(0) == 0 && !Odd(0);
      NoBits(n - 1);
    }
  }

  lemma {:induction false} WordXor(x: bv64, y: bv64, n: nat)
    ensures Word(Xor(x, y), n) == Plus(Word(x, n), Word(y, n))
    decreases n
  {
    hide Xor, Half, Odd;
    if n > 0 {
      HalfXor(x, y);
      OddXor(x, y);
      WordXor(Half(x), Half(y), n - 1);
    }
  }

  /** Halving moves every bit one place and brings in a zero. */
  lemma WordHalf(x: bv64)
    ensures Word(x, 64) + [false] == [Odd(x)] + Word(Half(x), 64)
  {
    hide Word, Half, Odd, Halves;
    AllHalves(x);
    WordSplits(x, 64, 1);
    assert Word(x, 65) == [Odd(x)] + Word(Half(x), 64) by { WordFirst(x, 65); }
    assert Word(0, 1) == [false] by { NoBits(1); }
  }

  lemma WordFirst(x: bv64, n: nat)
    requires n > 0
    ensures Word(x, n) == [Odd(x)] + Word(Half(x), n - 1)
  {
    hide Odd, Half;
  }

  lemma WordByte(x: bv64, n: nat)
    ensures Word(x, 8 + n) == Word(x, 8) + Word(High(x), n)
  {
    hide Word, High, Halves;
    WordSplits(x, 8, n);
    EightHalves(x);
  }

  /** The lowest eight bits. */
  lemma ByteBits(x: bv64)
    ensures Word(x, 8) == [x & 1 != 0, x & 2 != 0, x & 4 != 0, x & 8 != 0, x & 16 != 0, x & 32 != 0, x & 64 != 0, x & 128 != 0]
  {
    WordEight(x);
    hide Word;
    EightOdd(x);
  }

  lemma WordFour(x: bv64)
    ensures var a := Half(x); var b := Half(a); var c := Half(b);
            Word(x, 4) == [Odd(x), Odd(a), Odd(b), Odd(c)] && Halves(x, 4) == Half(c)
  {
    hide Half, Odd;
  }

  lemma WordEight(x: bv64)
    ensures var a := Half(x); var b := Half(a); var c := Half(b); var d := Half(c); var e := Half(d); var f := Half(e); var g := Half(f);
            Word(x, 8) == [Odd(x), Odd(a), Odd(b), Odd(c), Odd(d), Odd(e), Odd(f), Odd(g)]
  {
    hide Half, Odd, Word, Halves;
    WordSplits(x, 4, 4);
    WordFour(x);
    WordFour(Half(Half(Half(Half(x)))));
  }

  lemma EightOdd(x: bv64)
    ensures var a := Half(x); var b := Half(a); var c := Half(b); var d := Half(c); var e := Half(d); var f := Half(e); var g := Half(f);
            && (Odd(x) <==> x & 1 != 0) && (Odd(a) <==> x & 2 != 0) && (Odd(b) <==> x & 4 != 0) && (Odd(c) <==> x & 8 != 0)
            && (Odd(d) <==> x & 16 != 0) && (Odd(e) <==> x & 32 != 0) && (Odd(f) <==> x & 64 != 0) && (Odd(g) <==> x & 128 != 0)
  {}

  lemma Highs8()
    ensures High(0xad93d23594c935a9) == 0xad93d23594c935
    ensures High(0xad93d23594c935) == 0xad93d23594c9
    ensures High(0xad93d23594c9) == 0xad93d23594
    ensures High(0xad93d23594) == 0xad93d235
    ensures High(0xad93d235) == 0xad93d2
    ensures High(0xad93d2) == 0xad93
    ensures High(0xad93) == 0xad
    ensures High(0xad) == 0x0
  {}

  lemma OnesHigh()
    ensures High(0xffffffffffffffff) == 0xffffffffffffff
    ensures High(0xffffffffffffff) == 0xffffffffffff
    ensures High(0xffffffffffff) == 0xffffffffff
    ensures High(0xffffffffff) == 0xffffffff
    ensures High(0xffffffff) == 0xffffff
    ensures High(0xffffff) == 0xffff
    ensures High(0xffff) == 0xff
    ensures High(0xff) == 0x0
  {}

  /** The constant of the code has the coefficients below x^64. */
  lemma PolyWord()
    ensures POLYNOMIAL == [true] + Word(0xad93d23594c935a9, 64)
  {
    hide Word, High;
    Highs8();
    ByteBits(0xad93d23594c935a9);
    ByteBits(0xad93d23594c935);
    ByteBits(0xad93d23594c9);
    ByteBits(0xad93d23594);
    ByteBits(0xad93d235);
    ByteBits(0xad93d2);
    ByteBits(0xad93);
    ByteBits(0xad);
    WordByte(0xad93d23594c935a9, 56);
    WordByte(0xad93d23594c935, 48);
    WordByte(0xad93d23594c9, 40);
    WordByte(0xad93d23594, 32);
    WordByte(0xad93d235, 24);
    WordByte(0xad93d2, 16);
    WordByte(0xad93, 8);
  }

  lemma OnesWord()
    ensures Word(0xffff_ffff_ffff_ffff, 64) == Not(Zeros(64))
  {
    hide Word, High;
    OnesHigh();
    ByteBits(0xffffffffffffffff);
    ByteBits(0xffffffffffffff);
    ByteBits(0xffffffffffff);
    ByteBits(0xffffffffff);
    ByteBits(0xffffffff);
    ByteBits(0xffffff);
    ByteBits(0xffff);
    ByteBits(0xff);
    WordByte(0xffffffffffffffff, 56);
    WordByte(0xffffffffffffff, 48);
    WordByte(0xffffffffffff, 40);
    WordByte(0xffffffffff, 32);
    WordByte(0xffffffff, 24);
    WordByte(0xffffff, 16);
    WordByte(0xffff, 8);
  }

  // ---- One bit of the division ----

  /** A shift subtracts the divisor if the leading coefficient is one. */
  lemma ShiftDivides(x: bv64)
    ensures Word(x, 64) + [false] == Plus(if Odd(x) then POLYNOMIAL else Zeros(65), [false] + Word(Shift(x), 64))
  {
    hide Word, Xor, Half, Odd;
    var w := Word(Half(x), 64);
    WordHalf(x);
    if Odd(x) {
      PolyWord();
      var p := Word(0xad93d23594c935a9, 64);
      WordXor(Half(x), 0xad93d23594c935a9, 64);
      assert Plus([true] + p, [false] + Plus(w, p)) == [true] + w;
    } else {
      PlusZeros([false] + w);
    }
  }

  lemma {:induction false} ShiftsDivide(x: bv64, n: nat) returns (q: Poly)
    ensures |q| == n && Word(x, 64) + Zeros(n) == Plus(Times(q, POLYNOMIAL), Zeros(n) + Word(Shifts(x, n), 64))
    decreases n
  {
    hide Word, Shift, Odd;
    if n == 0 {
      q := [];
      PlusZeros(Word(x, 64));
      assert Word(x, 64) + Zeros(0) == Word(x, 64) && Zeros(0) + Word(x, 64) == Word(x, 64);
    } else {
      var q' := ShiftsDivide(Shift(x), n - 1);
      q := [Odd(x)] + q';
      ShiftDivides(x);
      FirstDivides(x, n, q');
    }
  }

  lemma FirstDivides(x: bv64, n: nat, q: Poly)
    requires n > 0 && |q| == n - 1
    requires Word(x, 64) + [false] == Plus(if Odd(x) then POLYNOMIAL else Zeros(65), [false] + Word(Shift(x), 64))
    requires Word(Shift(x), 64) + Zeros(n - 1) == Plus(Times(q, POLYNOMIAL), Zeros(n - 1) + Word(Shifts(Shift(x), n - 1), 64))
    ensures Word(x, 64) + Zeros(n) == Plus(Times([Odd(x)] + q, POLYNOMIAL), Zeros(n) + Word(Shifts(x, n), 64))
  {
    hide Word, Shift, Odd, Plus, Zeros;
    var head, y := if Odd(x) then POLYNOMIAL else Zeros(65), Word(Shift(x), 64);
    var r, t := Word(Shifts(x, n), 64), Times(q, POLYNOMIAL);
    assert ([Odd(x)] + q)[1..] == q;
    assert Times([Odd(x)] + q, POLYNOMIAL) == Plus(head + Zeros(n - 1), [false] + t);
    assert Zeros(n) == [false] + Zeros(n - 1) by { ZerosFirst(n); }
    calc {
      Word(x, 64) + Zeros(n);
      { Collect.Joined(Word(x, 64), [false], Zeros(n - 1)); }
      Word(x, 64) + [false] + Zeros(n - 1);
      { PlusZeros(Zeros(n - 1)); PlusJoined(head, [false] + y, Zeros(n - 1), Zeros(n - 1)); }
      Plus(head + Zeros(n - 1), [false] + y + Zeros(n - 1));
      { Collect.Joined([false], y, Zeros(n - 1)); PlusJoined([false], [false], t, Zeros(n - 1) + r); NoSum(); }
      Plus(head + Zeros(n - 1), Plus([false] + t, [false] + (Zeros(n - 1) + r)));
      { PlusAssoc(head + Zeros(n - 1), [false] + t, [false] + (Zeros(n - 1) + r)); Collect.Joined([false], Zeros(n - 1), r); }
      Plus(Plus(head + Zeros(n - 1), [false] + t), Zeros(n) + r);
    }
  }

  lemma NoSum()
    ensures Plus([false], [false]) == [false]
  {}

  lemma ZerosFirst(n: nat)
    requires n > 0
    ensures Zeros(n) == [false] + Zeros(n - 1)
  {}

  // ---- Whole messages ----

  /** A byte has nothing above its eight bits. */
  lemma ByteWord(b: byte)
    ensures Word(Widen(b), 64) == Word(Widen(b), 8) + Zeros(56)
  {
    hide Word, Widen, High;
    WordByte(Widen(b), 56);
    ByteHasNoHigh(b);
    NoBits(56);
  }

  /** The product of a quotient in two parts. */
  lemma {:induction false} TimesSplits(q: Poly, q': Poly, p: Poly)
    requires p != []
    ensures Times(q + q', p) == Plus(Times(q, p) + Zeros(|q'|), Zeros(|q|) + Times(q', p))
    decreases |q|
  {
    if q == [] {
      assert q + q' == q' && Zeros(0) + Times(q', p) == Times(q', p);
      ZerosJoined(|p| - 1, |q'|);
      PlusZeros(Times(q', p));
    } else {
      assert (q + q')[1..] == q[1..] + q' && (q + q')[0] == q[0];
      TimesSplits(q[1..], q', p);
      TimesFirst(q, p);
      TimesFirst(q + q', p);
      hide Times, Plus, Zeros;
      Regrouped(if q[0] then p else Zeros(|p|), Times(q[1..], p), Times(q', p), |q|, |q'|, Times(q[1..] + q', p), Times(q, p));
    }
  }

  /** Three sums, shifted against each other. */
  lemma Regroup(head: Poly, t: Poly, t': Poly, n: nat, n': nat)
    requires n > 0 && |t| == |head| + n - 2 && |t'| == |head| + n' - 1
    ensures Plus(head + Zeros(n + n' - 1), [false] + Plus(t + Zeros(n'), Zeros(n - 1) + t')) ==
            Plus(Plus(head + Zeros(n - 1), [false] + t) + Zeros(n'), Zeros(n) + t')
  {
    var a, b, c := head + Zeros(n + n' - 1), [false] + (t + Zeros(n')), Zeros(n) + t';
    assert [false] + Plus(t + Zeros(n'), Zeros(n - 1) + t') == Plus(b, c) by {
      assert Plus([false] + (t + Zeros(n')), [false] + (Zeros(n - 1) + t')) == [false] + Plus(t + Zeros(n'), Zeros(n - 1) + t');
      assert c == [false] + (Zeros(n - 1) + t');
    }
    assert Plus(head + Zeros(n - 1), [false] + t) + Zeros(n') == Plus(a, b) by {
      assert a == head + Zeros(n - 1) + Zeros(n') && b == [false] + t + Zeros(n');
      PlusJoined(head + Zeros(n - 1), [false] + t, Zeros(n'), Zeros(n'));
      PlusZeros(Zeros(n'));
    }
    PlusAssoc(a, b, c);
  }

  lemma Regrouped(head: Poly, t: Poly, t': Poly, n: nat, n': nat, rest: Poly, all: Poly)
    requires n > 0 && |t| == |head| + n - 2 && |t'| == |head| + n' - 1
    requires rest == Plus(t + Zeros(n'), Zeros(n - 1) + t') && all == Plus(head + Zeros(n - 1), [false] + t)
    ensures Plus(head + Zeros(n + n' - 1), [false] + rest) == Plus(all + Zeros(n'), Zeros(n) + t')
  {
    hide Plus, Zeros;
    Regroup(head, t, t', n, n');
  }

  lemma TimesFirst(q: Poly, p: Poly)
    requires p != [] && q != []
    ensures Times(q, p) == Plus((if q[0] then p else Zeros(|p|)) + Zeros(|q| - 1), [false] + Times(q[1..], p))
  {}

  /** `dividend` is `q` times the divisor plus `r`. */
  ghost predicate Divided(dividend: Poly, q: Poly, r: Poly) {
    && |r| == 64 && |dividend| == |q| + 64
    && dividend == Plus(Times(q, POLYNOMIAL), Zeros(|q|) + r)
  }

  /** A message behind a state: the state is added to its first 64 places. */
  function Dividend(c: Poly, bits: Poly): Poly
    requires |c| == 64
  {
    Plus(c + Zeros(|bits|), bits + Zeros(64))
  }

  /** One byte taken in, the rest of the message waiting. */
  lemma ByteDivides(c: bv64, b: byte, rest: Poly) returns (q: Poly)
    ensures |q| == 8
    ensures Dividend(Word(c, 64), Word(Widen(b), 8) + rest) ==
            Plus(Times(q, POLYNOMIAL) + Zeros(|rest|), Zeros(8) + Dividend(Word(ByteStep(c, b), 64), rest))
  {
    hide Word, Widen, Xor, Shifts, Times;
    var x, n := Xor(c, Widen(b)), |rest|;
    var w, v, u, r := Word(c, 64), Word(Widen(b), 8), Word(x, 64), Word(ByteStep(c, b), 64);
    q := ShiftsDivide(x, 8);
    WordXor(c, Widen(b), 64);
    ByteWord(b);
    assert u == Plus(w, v + Zeros(56));
    var t := Times(q, POLYNOMIAL);
    assert u + Zeros(8) == Plus(t, Zeros(8) + r);
    hide Plus;
    assert Dividend(w, v + rest) == Plus(u + Zeros(8 + n), Zeros(8) + (rest + Zeros(64))) by { TakeIn(w, v, rest); }
    assert u + Zeros(8 + n) == Plus(t + Zeros(n), Zeros(8) + (r + Zeros(n))) by {
      ZerosJoined(8, n);
      Collect.Joined(u, Zeros(8), Zeros(n));
      PlusZeros(Zeros(n));
      PlusJoined(t, Zeros(8) + r, Zeros(n), Zeros(n));
      Collect.Joined(Zeros(8), r, Zeros(n));
    }
    PlusAssoc(t + Zeros(n), Zeros(8) + (r + Zeros(n)), Zeros(8) + (rest + Zeros(64)));
    PlusZeros(Zeros(8));
    PlusJoined(Zeros(8), Zeros(8), r + Zeros(n), rest + Zeros(64));
  }

  lemma TakeIn(w: Poly, v: Poly, rest: Poly)
    requires |w| == 64 && |v| == 8
    ensures Dividend(w, v + rest) == Plus(Plus(w, v + Zeros(56)) + Zeros(8 + |rest|), Zeros(8) + (rest + Zeros(64)))
  {
    var n := |rest|;
    var a, b := w + Zeros(8 + n), v + rest + Zeros(64);
    var c, d := v + Zeros(56) + Zeros(8 + n), Zeros(8) + (rest + Zeros(64));
    assert b == Plus(c, d);
    PlusZeros(Zeros(8 + n));
    PlusJoined(w, v + Zeros(56), Zeros(8 + n), Zeros(8 + n));
    PlusAssoc(a, c, d);
  }

  /** Summing a message is dividing it. */
  lemma {:induction false} FoldDivides(c: bv64, data: bytes) returns (q: Poly)
    ensures |q| == 8 * |data| && Divided(Dividend(Word(c, 64), Bits(data)), q, Word(Fold(c, data), 64))
    decreases |data|
  {
    hide Word, ByteStep;
    if data == [] {
      q := [];
      var w := Word(c, 64);
      assert w + Zeros(0) == w && [] + Zeros(64) == Zeros(64) && Zeros(0) + w == w;
    } else {
      var rest := Bits(data[1..]);
      var q0 := ByteDivides(c, data[0], rest);
      var q1 := FoldDivides(ByteStep(c, data[0]), data[1..]);
      q := q0 + q1;
      JoinDivided(Dividend(Word(c, 64), Bits(data)), Dividend(Word(ByteStep(c, data[0]), 64), rest), q0, q1, Word(Fold(c, data), 64));
    }
  }

  lemma JoinDivided(d: Poly, d': Poly, q: Poly, q': Poly, r: Poly)
    requires |q| == 8 && Divided(d', q', r) && d == Plus(Times(q, POLYNOMIAL) + Zeros(|q'|), Zeros(8) + d')
    ensures Divided(d, q + q', r)
  {
    var t, t', n := Times(q, POLYNOMIAL), Times(q', POLYNOMIAL), |q'|;
    hide Times, Plus;
    TimesSplits(q, q', POLYNOMIAL);
    PlusZeros(Zeros(8));
    PlusJoined(Zeros(8), Zeros(8), t', Zeros(n) + r);
    PlusAssoc(t + Zeros(n), Zeros(8) + t', Zeros(8) + (Zeros(n) + r));
    Collect.Joined(Zeros(8), Zeros(n), r);
    ZerosJoined(8, n);
  }

  // ---- The remainder is unique ----

  lemma {:induction false} RemainderOnce(d: Poly, q: Poly, r: Poly, q': Poly, r': Poly)
    requires Divided(d, q, r) && Divided(d, q', r')
    ensures q == q' && r == r'
    decreases |q|
  {
    if q == [] {
      assert Times(q, POLYNOMIAL) == Zeros(64) && q' == [];
      PlusZeros(r);
      PlusZeros(r');
      assert Zeros(0) + r == r && Zeros(0) + r' == r';
    } else {
      LeadingQuotient(d, q, r);
      LeadingQuotient(d, q', r');
      RemainderOnce(Reduced(d), q[1..], r, q'[1..], r');
      assert q == [q[0]] + q[1..] && q' == [q'[0]] + q'[1..];
    }
  }

  /** Subtract the divisor if the leading coefficient is one, and go on with the rest. */
  function Reduced(d: Poly): (r: Poly)
    requires |d| >= 65
    ensures |r| == |d| - 1
  {
    (if d[0] then Plus(d, POLYNOMIAL + Zeros(|d| - 65)) else d)[1..]
  }

  lemma LeadingQuotient(d: Poly, q: Poly, r: Poly)
    requires q != [] && Divided(d, q, r)
    ensures q[0] == d[0] && Divided(Reduced(d), q[1..], r)
  {
    TimesFirst(q, POLYNOMIAL);
    var n, t := |q|, Times(q[1..], POLYNOMIAL);
    hide Times;
    var head := (if q[0] then POLYNOMIAL else Zeros(65)) + Zeros(n - 1);
    assert POLYNOMIAL[0];
    assert d[0] == q[0];
    var rest := Plus(t, Zeros(n - 1) + r);
    forall i | 0 <= i < |rest|
      ensures Reduced(d)[i] == rest[i]
    {
      assert d[i + 1] == ((head[i + 1] != ([false] + t)[i + 1]) != (Zeros(n) + r)[i + 1]);
      assert ([false] + t)[i + 1] == t[i] && (Zeros(n) + r)[i + 1] == (Zeros(n - 1) + r)[i];
    }
    assert Reduced(d) == rest;
  }

  /** The message with the state complemented in front: all ones for a new checksum. */
  function Message(crc: bv64, data: bytes): Poly { Dividend(Not(Word(crc, 64)), Bits(data)) }

  lemma FlipWord(x: bv64)
    ensures Word(Flip(x), 64) == Not(Word(x, 64))
  {
    hide Word, Flip, Xor;
    FlipIsXor(x);
    WordXor(x, 0xffff_ffff_ffff_ffff, 64);
    OnesWord();
  }

  lemma FlipIsXor(x: bv64)
    ensures Flip(x) == Xor(x, 0xffff_ffff_ffff_ffff)
  {}

  /**
   The checksum is the complement of the remainder that the message, preset with ones, leaves when divided by
   the polynomial: exactly that and no other word.
   */
  lemma CrcIsRemainder(crc: bv64, data: bytes, r: Poly)
    ensures r == Not(Word(Crc(crc, data), 64)) <==> exists q :: Divided(Message(crc, data), q, r)
  {
    hide Word, Fold, Flip, Divided;
    var q := FoldDivides(Flip(crc), data);
    FlipWord(crc);
    FlipWord(Crc(crc, data));
    FlipTwice(Fold(Flip(crc), data));
    assert Divided(Message(crc, data), q, Not(Word(Crc(crc, data), 64)));
    forall q' | Divided(Message(crc, data), q', r)
      ensures r == Not(Word(Crc(crc, data), 64))
    {
      RemainderOnce(Message(crc, data), q, Not(Word(Crc(crc, data), 64)), q', r);
    }
  }

  /** A new checksum starts from ones. */
  lemma Preset()
    ensures Not(Word(0, 64)) == Not(Zeros(64))
  {
    NoBits(64);
  }

  // ---- Fixed values ----

  lemma ZeroByte()
    ensures Crc(0, [0]) == 0x7dc0_9f8d_3674_a305
  {
    hide ByteStep, Flip;
    assert Flip(0) == 0xffff_ffff_ffff_ffff by { FlipIsXor(0); }
    assert [0 as byte][1..] == [];
    assert ByteStep(0xffff_ffff_ffff_ffff, 0) == 0x823f_6072_c98b_5cfa by { ZeroStep(); }
    assert Flip(0x823f_6072_c98b_5cfa) == 0x7dc0_9f8d_3674_a305 by { FlipIsXor(0x823f_6072_c98b_5cfa); }
  }

  lemma ZeroStep()
    ensures ByteStep(0xffff_ffff_ffff_ffff, 0) == 0x823f_6072_c98b_5cfa
  {}
}
