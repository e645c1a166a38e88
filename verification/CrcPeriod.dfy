/** For which lengths a run of zero bytes has the checksum zero. */
module CrcPeriod {
  import opened Common
  import opened Crc64
  import opened CrcPowers
  import opened Numbers
  import opened Primes

  const ONES: bv64 := 0xffff_ffff_ffff_ffff

  /** The number of zero bytes after which the state is back. */
  const PERIOD := 1080731969173463055

  // ---- Polynomials in shifts ----

  /** Coefficients by eights, the highest first. */
  datatype Coefficients = Done | More(b0: bool, b1: bool, b2: bool, b3: bool, b4: bool, b5: bool, b6: bool, b7: bool,
      rest: Coefficients)

  function Next(acc: bv64, y: bv64, b: bool): bv64 { Xor(Shift(acc), if b then y else 0) }

  function NextEight(acc: bv64, y: bv64, b0: bool, b1: bool, b2: bool, b3: bool, b4: bool, b5: bool, b6: bool, b7: bool): bv64 {
    var x := Next(Next(Next(Next(acc, y, b0), y, b1), y, b2), y, b3);
    Next(Next(Next(Next(x, y, b4), y, b5), y, b6), y, b7)
  }

  /** The polynomial in shifts, applied to `y`, after `acc`. */
  function Horner(acc: bv64, y: bv64, p: Coefficients): bv64
    decreases p
  {
    match p
    case Done => acc
    case More(b0, b1, b2, b3, b4, b5, b6, b7, rest) => Horner(NextEight(acc, y, b0, b1, b2, b3, b4, b5, b6, b7), y, rest)
  }

  lemma ShiftZero()
    ensures Shift(0) == 0
  {}

  lemma {:induction false} ShiftsZero(n: nat)
    ensures Shifts(0, n) == 0
    decreases n
  {
    hide Shift;
    if n > 0 {
      ShiftZero();
      ShiftsZero(n - 1);
    }
  }

  lemma ShiftsShift(x: bv64, n: nat)
    ensures Shifts(Shift(x), n) == Shift(Shifts(x, n))
  {
    hide Shift;
    ShiftsAdd(x, 1, n);
    ShiftsAdd(x, n, 1);
    assert Shifts(x, 1) == Shift(x) && Shifts(Shifts(x, n), 1) == Shift(Shifts(x, n));
  }

  lemma ShiftsPick(p: bool, y: bv64, n: nat)
    ensures Shifts(if p then y else 0, n) == if p then Shifts(y, n) else 0
  {
    hide Shifts;
    ShiftsZero(n);
  }

  lemma NextShifts(acc: bv64, y: bv64, b: bool, n: nat)
    ensures Next(Shifts(acc, n), Shifts(y, n), b) == Shifts(Next(acc, y, b), n)
  {
    hide Xor, Shift, Shifts;
    ShiftsXor(Shift(acc), if b then y else 0, n);
    ShiftsShift(acc, n);
    ShiftsPick(b, y, n);
  }

  lemma NextEightShifts(acc: bv64, y: bv64, b0: bool, b1: bool, b2: bool, b3: bool, b4: bool, b5: bool, b6: bool, b7: bool,
      n: nat)
    ensures NextEight(Shifts(acc, n), Shifts(y, n), b0, b1, b2, b3, b4, b5, b6, b7) ==
            Shifts(NextEight(acc, y, b0, b1, b2, b3, b4, b5, b6, b7), n)
  {
    hide Next, Shifts;
    NextShifts(acc, y, b0, n);
    var a1 := Next(acc, y, b0);
    NextShifts(a1, y, b1, n);
    var a2 := Next(a1, y, b1);
    NextShifts(a2, y, b2, n);
    var a3 := Next(a2, y, b2);
    NextShifts(a3, y, b3, n);
    var a4 := Next(a3, y, b3);
    NextShifts(a4, y, b4, n);
    var a5 := Next(a4, y, b4);
    NextShifts(a5, y, b5, n);
    var a6 := Next(a5, y, b5);
    NextShifts(a6, y, b6, n);
    var a7 := Next(a6, y, b6);
    NextShifts(a7, y, b7, n);
  }

  /** Polynomials commute with shifting. */
  lemma {:induction false} HornerShifts(acc: bv64, y: bv64, p: Coefficients, n: nat)
    ensures Horner(Shifts(acc, n), Shifts(y, n), p) == Shifts(Horner(acc, y, p), n)
    decreases p
  {
    hide NextEight, Shifts;
    match p
    case Done =>
    case More(b0, b1, b2, b3, b4, b5, b6, b7, rest) =>
      HornerShifts(NextEight(acc, y, b0, b1, b2, b3, b4, b5, b6, b7), y, rest, n);
      NextEightShifts(acc, y, b0, b1, b2, b3, b4, b5, b6, b7, n);
  }

  lemma OnesSteps()
    ensures NextEight(0x0, 0x8000000000000000, true, true, true, true, true, true, true, true) == 0xff00000000000000
    ensures NextEight(0xff00000000000000, 0x8000000000000000, true, true, true, true, true, true, true, true) ==
            0xffff000000000000
    ensures NextEight(0xffff000000000000, 0x8000000000000000, true, true, true, true, true, true, true, true) ==
            0xffffff0000000000
    ensures NextEight(0xffffff0000000000, 0x8000000000000000, true, true, true, true, true, true, true, true) ==
            0xffffffff00000000
    ensures NextEight(0xffffffff00000000, 0x8000000000000000, true, true, true, true, true, true, true, true) ==
            0xffffffffff000000
    ensures NextEight(0xffffffffff000000, 0x8000000000000000, true, true, true, true, true, true, true, true) ==
            0xffffffffffff0000
    ensures NextEight(0xffffffffffff0000, 0x8000000000000000, true, true, true, true, true, true, true, true) ==
            0xffffffffffffff00
    ensures NextEight(0xffffffffffffff00, 0x8000000000000000, true, true, true, true, true, true, true, true) ==
            0xffffffffffffffff
  {}

  /** The all-ones word as a polynomial in shifts of 1. */
  lemma OnesFromOne()
    ensures exists p :: Horner(0, 0x8000000000000000, p) == 0xffffffffffffffff
  {
    hide NextEight;
    OnesSteps();
    assert Horner(0xffffffffffffffff, 0x8000000000000000, Done) == 0xffffffffffffffff;
    var p7 := More(true, true, true, true, true, true, true, true, Done);
    assert Horner(0xffffffffffffff00, 0x8000000000000000, p7) == 0xffffffffffffffff;
    var p6 := More(true, true, true, true, true, true, true, true, p7);
    assert Horner(0xffffffffffff0000, 0x8000000000000000, p6) == 0xffffffffffffffff;
    var p5 := More(true, true, true, true, true, true, true, true, p6);
    assert Horner(0xffffffffff000000, 0x8000000000000000, p5) == 0xffffffffffffffff;
    var p4 := More(true, true, true, true, true, true, true, true, p5);
    assert Horner(0xffffffff00000000, 0x8000000000000000, p4) == 0xffffffffffffffff;
    var p3 := More(true, true, true, true, true, true, true, true, p4);
    assert Horner(0xffffff0000000000, 0x8000000000000000, p3) == 0xffffffffffffffff;
    var p2 := More(true, true, true, true, true, true, true, true, p3);
    assert Horner(0xffff000000000000, 0x8000000000000000, p2) == 0xffffffffffffffff;
    var p1 := More(true, true, true, true, true, true, true, true, p2);
    assert Horner(0xff00000000000000, 0x8000000000000000, p1) == 0xffffffffffffffff;
    var p0 := More(true, true, true, true, true, true, true, true, p1);
    assert Horner(0x0, 0x8000000000000000, p0) == 0xffffffffffffffff;
  }

  lemma OneSteps()
    ensures NextEight(0x0, 0xffffffffffffffff, true, false, false, true, true, false, true, false) == 0x58b9fca058b4dc53
    ensures NextEight(0x58b9fca058b4dc53, 0xffffffffffffffff, false, true, true, false, false, false, false, false) ==
            0x99f361147df9a236
    ensures NextEight(0x99f361147df9a236, 0xffffffffffffffff, true, false, false, false, true, false, false, false) ==
            0xac6166316b6179e4
    ensures NextEight(0xac6166316b6179e4, 0xffffffffffffffff, true, false, false, true, false, false, true, true) ==
            0x24e5628adf5739ab
    ensures NextEight(0x24e5628adf5739ab, 0xffffffffffffffff, true, false, false, false, true, true, false, false) ==
            0x8fa5a0445c932bd2
    ensures NextEight(0x8fa5a0445c932bd2, 0xffffffffffffffff, false, true, true, false, false, false, true, false) ==
            0x3abd864b150df463
    ensures NextEight(0x3abd864b150df463, 0xffffffffffffffff, true, true, false, true, true, false, false, false) ==
            0x20b4f813d42e0a61
    ensures NextEight(0x20b4f813d42e0a61, 0xffffffffffffffff, true, true, false, false, false, true, false, true) ==
            0x8000000000000000
  {}

  /** And back: the all-ones word is invertible. */
  lemma OneFromOnes()
    ensures exists p :: Horner(0, 0xffffffffffffffff, p) == 0x8000000000000000
  {
    hide NextEight;
    OneSteps();
    assert Horner(0x8000000000000000, 0xffffffffffffffff, Done) == 0x8000000000000000;
    var p7 := More(true, true, false, false, false, true, false, true, Done);
    assert Horner(0x20b4f813d42e0a61, 0xffffffffffffffff, p7) == 0x8000000000000000;
    var p6 := More(true, true, false, true, true, false, false, false, p7);
    assert Horner(0x3abd864b150df463, 0xffffffffffffffff, p6) == 0x8000000000000000;
    var p5 := More(false, true, true, false, false, false, true, false, p6);
    assert Horner(0x8fa5a0445c932bd2, 0xffffffffffffffff, p5) == 0x8000000000000000;
    var p4 := More(true, false, false, false, true, true, false, false, p5);
    assert Horner(0x24e5628adf5739ab, 0xffffffffffffffff, p4) == 0x8000000000000000;
    var p3 := More(true, false, false, true, false, false, true, true, p4);
    assert Horner(0xac6166316b6179e4, 0xffffffffffffffff, p3) == 0x8000000000000000;
    var p2 := More(true, false, false, false, true, false, false, false, p3);
    assert Horner(0x99f361147df9a236, 0xffffffffffffffff, p2) == 0x8000000000000000;
    var p1 := More(false, true, true, false, false, false, false, false, p2);
    assert Horner(0x58b9fca058b4dc53, 0xffffffffffffffff, p1) == 0x8000000000000000;
    var p0 := More(true, false, false, true, true, false, true, false, p1);
    assert Horner(0x0, 0xffffffffffffffff, p0) == 0x8000000000000000;
  }

  /** Shifting brings the all-ones word back exactly when it brings 1 back. */
  lemma OnesReturn(n: nat)
    ensures Shifts(ONES, n) == ONES <==> Is(n, ONE)
  {
    hide Shifts, Horner;
    ShiftsZero(n);
    OnesFromOne();
    OneFromOnes();
    var up :| Horner(0, ONE, up) == ONES;
    var back :| Horner(0, ONES, back) == ONE;
    HornerShifts(0, ONE, up, n);
    HornerShifts(0, ONES, back, n);
  }

  // ---- Periods ----

  /** `n` zero bytes bring the state back. */
  predicate Back(n: nat) { Is(8 * n, ONE) }

  lemma BackNone()
    ensures Back(0)
  {}

  lemma BackAdd(m: nat, n: nat)
    requires Back(m)
    ensures Back(m + n) <==> Back(n)
  {
    hide Shifts;
    ShiftsAdd(ONE, 8 * m, 8 * n);
    assert 8 * (m + n) == 8 * m + 8 * n;
  }

  lemma {:induction false} BackTimes(n: nat, t: nat)
    requires Back(n)
    ensures Times(t, n) >= 0 && Back(Times(t, n))
    decreases t
  {
    hide Back, Times;
    Unit(n);
    if t == 0 {
      BackNone();
    } else {
      BackTimes(n, t - 1);
      BackAdd(n, Times(t - 1, n));
      Spread(t - 1, 1, n);
    }
  }

  /** If a q-th of a period is none, then the prime q divides every period. */
  lemma PrimeDivides(q: nat, e: nat, n: nat)
    requires Prime(q) && Times(q, e) >= 0 && Back(Times(q, e)) && !Back(e) && Back(n)
    ensures Divides(q, n)
  {
    hide Back, Times, Rest;
    if !Divides(q, n) {
      var a, k := Inverse(q, n);
      NotNegative(a, e);
      BackTimes(n, Times(a, e));
      BackTimes(Times(q, e), k);
      Rearrange(a, e, n, k, q);
      BackAdd(Times(k, Times(q, e)), e);
    }
  }

  lemma Rearrange(a: nat, e: nat, n: nat, k: nat, q: nat)
    requires Times(a, n) == Times(k, q) + 1
    ensures Times(Times(a, e), n) == Times(k, Times(q, e)) + e
  {
    hide Times;
    Assoc(a, e, n);
    Swap(e, n);
    Assoc(a, n, e);
    Spread(Times(k, q), 1, e);
    Assoc(k, q, e);
    Unit(e);
  }

  lemma NotBack(e: nat, k: nat, x: bv64)
    requires Is(k, x) && x != ONE && k == 8 * e
    ensures !Back(e)
  {}

  lemma Whole()
    ensures Back(PERIOD)
  {
    Power();
    hide Shifts;
  }

  lemma Multiple3(n: nat)
    requires Back(n)
    ensures Divides(3, n)
  {
    Power3();
    hide Is, Back;
    Whole();
    NotBack(360243989724487685, 2881951917795901480, 0x3148bfb92f585897);
    IsPrime3();
    PrimeDivides(3, 360243989724487685, n);
  }

  lemma Multiple5(n: nat)
    requires Back(n)
    ensures Divides(5, n)
  {
    Power5();
    hide Is, Back;
    Whole();
    NotBack(216146393834692611, 1729171150677540888, 0x6c0aba541136344a);
    IsPrime5();
    PrimeDivides(5, 216146393834692611, n);
  }

  lemma Multiple8191(n: nat)
    requires Back(n)
    ensures Divides(8191, n)
  {
    Power8191();
    hide Is, Back;
    Whole();
    NotBack(131941395333105, 1055531162664840, 0x5fa8ecf328117376);
    IsPrime8191();
    PrimeDivides(8191, 131941395333105, n);
  }

  lemma Multiple431(n: nat)
    requires Back(n)
    ensures Divides(431, n)
  {
    Power431();
    hide Is, Back;
    Whole();
    NotBack(2507498768383905, 20059990147071240, 0xc3aec474d9a424ec);
    IsPrime431();
    PrimeDivides(431, 2507498768383905, n);
  }

  lemma Multiple9719(n: nat)
    requires Back(n)
    ensures Divides(9719, n)
  {
    Power9719();
    hide Is, Back;
    Whole();
    NotBack(111197856690345, 889582853522760, 0x2108395766de8625);
    IsPrime9719();
    PrimeDivides(9719, 111197856690345, n);
  }

  lemma Multiple2099863(n: nat)
    requires Back(n)
    ensures Divides(2099863, n)
  {
    Power2099863();
    hide Is, Back;
    Whole();
    NotBack(514667846985, 4117342775880, 0x89d713f81205285b);
    IsPrime2099863();
    PrimeDivides(2099863, 514667846985, n);
  }

  /** The state is back after `n` zero bytes exactly if `n` is a multiple of the period. */
  lemma BackIff(n: nat)
    ensures Back(n) <==> Divides(PERIOD, n)
  {
    hide Back, Prime;
    if Back(n) {
      Multiple3(n);
      Multiple5(n);
      Multiple8191(n);
      Multiple431(n);
      Multiple9719(n);
      Multiple2099863(n);
      AllDivide(n);
    }
    if Divides(PERIOD, n) {
      Whole();
      var t := Factor(PERIOD, n);
      BackTimes(PERIOD, t);
    }
  }

  /** What several primes divide, their product divides. */
  lemma AllDivide(n: nat)
    requires Divides(3, n) && Divides(5, n) && Divides(8191, n) && Divides(431, n) && Divides(9719, n) && Divides(2099863, n)
    ensures Divides(PERIOD, n)
  {
    hide Prime;
    var a0 := Factor(3, n);
    IsPrime5();
    var a1 := NextFactor(3, 5, a0, n);
    IsPrime8191();
    var a2 := NextFactor(15, 8191, a1, n);
    IsPrime431();
    var a3 := NextFactor(122865, 431, a2, n);
    IsPrime9719();
    var a4 := NextFactor(52954815, 9719, a3, n);
    IsPrime2099863();
    var a5 := NextFactor(514667846985, 2099863, a4, n);
    Product(PERIOD, a5);
  }

  // ---- Runs of zero bytes ----

  function ZeroBytes(n: nat): bytes { seq(n, i => 0) }

  lemma {:induction false} FoldZeros(c: bv64, n: nat)
    ensures Fold(c, ZeroBytes(n)) == Shifts(c, 8 * n)
    decreases n
  {
    hide Shifts, ByteStep;
    if n == 0 {
      NoShift(c);
    } else {
      assert ZeroBytes(n)[1..] == ZeroBytes(n - 1);
      FoldZeros(ByteStep(c, 0), n - 1);
      ZeroStep(c);
      ShiftsAdd(c, 8, 8 * (n - 1));
    }
  }

  lemma ZeroStep(c: bv64)
    ensures ByteStep(c, 0) == Shifts(c, 8)
  {
    hide Shifts, Xor;
    XorZero(c);
    assert Widen(0) == 0;
  }

  lemma FlipOnes(x: bv64)
    ensures Flip(0) == ONES && (Flip(x) == 0 <==> x == ONES)
  {}

  /**
   The complements make a run of zero bytes visible: its checksum is zero exactly if its length is a multiple of
   the period, which is more than a million million million bytes.
   */
  lemma ZeroRuns(n: nat)
    ensures Crc(0, ZeroBytes(n)) == 0 <==> n % 1080731969173463055 == 0
  {
    hide Flip, Fold, Shifts, Is;
    FlipOnes(Fold(ONES, ZeroBytes(n)));
    FoldZeros(ONES, n);
    OnesReturn(8 * n);
    BackIff(n);
  }
}
