/** Divisors, inverses modulo a prime, and the primality of the factors of the checksum's period. */
module Primes {
  import opened Numbers

  predicate Divides(d: nat, n: nat)
    requires d > 0
  {
    Rest(n, d) == 0
  }

  /** A number with a divisor is a multiple of it. */
  lemma Factor(d: nat, n: nat) returns (t: nat)
    requires d > 0 && Divides(d, n)
    ensures n == Times(t, d)
  {
    hide Times, Quotient, Rest;
    Divided(n, d);
    Multiples(Quotient(n, d), d);
    t := Quotient(n, d);
  }

  lemma Product(d: nat, t: nat)
    requires d > 0
    ensures Times(t, d) >= 0 && Divides(d, Times(t, d))
  {
    hide Times, Quotient, Rest;
    Multiples(t, d);
    DividedOnce(Times(t, d), d, t, 0);
  }

  lemma Swap(a: int, b: int)
    ensures Times(a, b) == Times(b, a)
  {}

  lemma Unit(a: int)
    ensures Times(a, 1) == a && Times(1, a) == a && Times(a, 0) == 0 && Times(0, a) == 0
  {}

  lemma Assoc(a: int, b: int, c: int)
    ensures Times(Times(a, b), c) == Times(a, Times(b, c))
  {}

  lemma Spread(a: int, b: int, c: int)
    ensures Times(a + b, c) == Times(a, c) + Times(b, c)
  {}

  // ---- Euclid ----

  lemma Combine(a: int, b: int, q: int, r: int, x: int, y: int)
    requires a == Times(q, b) + r
    ensures Times(a, y) + Times(b, x - Times(q, y)) == Times(b, x) + Times(r, y)
  {}

  /** A common divisor is a combination of the two numbers. */
  lemma {:induction false} Bezout(a: nat, b: nat) returns (x: int, y: int, g: nat)
    requires a > 0
    ensures g > 0 && Times(a, x) + Times(b, y) == g && Divides(g, a) && Divides(g, b)
    decreases b
  {
    hide Times, Quotient, Rest;
    if b == 0 {
      x, y, g := 1, 0, a;
      Unit(a);
      Unit(b);
      Product(a, 1);
      Product(a, 0);
    } else {
      var q, r := Quotient(a, b), Rest(a, b);
      var s, t;
      s, t, g := Bezout(b, r);
      x, y := t, s - Times(q, t);
      Divided(a, b);
      Combine(a, b, q, r, s, t);
      Carries(g, a, b, q, r);
    }
  }

  /** What divides divisor and rest divides the dividend. */
  lemma Carries(g: nat, a: nat, b: nat, q: int, r: nat)
    requires g > 0 && b > 0 && a == Times(q, b) + r && Divides(g, b) && Divides(g, r)
    ensures Divides(g, a)
  {
    hide Times, Quotient, Rest;
    var s := Factor(g, b);
    var t := Factor(g, r);
    Assoc(q, s, g);
    Spread(Times(q, s), t, g);
    Multiple(g, a, Times(q, s) + t);
  }

  lemma Multiple(d: nat, n: nat, t: int)
    requires d > 0 && n == Times(t, d)
    ensures t >= 0 && Divides(d, n)
  {
    hide Times, Quotient, Rest;
    Multiples(t, d);
    DividedOnce(n, d, t, 0);
  }

  // ---- Primes ----

  ghost predicate Prime(q: nat) { q > 1 && forall d :: 1 < d < q ==> !Divides(d, q) }

  lemma NoLarger(d: nat, n: nat)
    requires d > 0 && n > 0 && Divides(d, n)
    ensures d <= n
  {
    hide Times, Quotient, Rest;
    var t := Factor(d, n);
    Multiples(t, d);
  }

  lemma Coprime(q: nat, g: nat, n: nat)
    requires Prime(q) && g > 0 && Divides(g, q) && Divides(g, n) && !Divides(q, n)
    ensures g == 1
  {
    hide Rest;
    NoLarger(g, q);
  }

  /** What a prime does not divide has an inverse modulo the prime. */
  lemma Inverse(q: nat, n: nat) returns (a: nat, k: nat)
    requires Prime(q) && !Divides(q, n)
    ensures Times(a, n) == Times(k, q) + 1
  {
    hide Times, Rest, Quotient, Divides;
    var x, y, g := Bezout(q, n);
    Coprime(q, g, n);
    var s := if y < 0 then -y else y;
    NotLess(s, q);
    var a' := y + Times(s, q);
    var k' := Times(s, n) - x;
    Balance(q, n, x, y, s);
    NotNegative(a', n);
    Multiples(k', q);
    a, k := a', k';
  }

  lemma NotLess(s: nat, q: nat)
    requires q > 0
    ensures Times(s, q) >= s
  {}

  lemma NotNegative(a: nat, n: nat)
    ensures Times(a, n) >= 0
  {}

  lemma Balance(q: int, n: int, x: int, y: int, s: int)
    requires Times(q, x) + Times(n, y) == 1
    ensures Times(y + Times(s, q), n) == Times(Times(s, n) - x, q) + 1
  {}

  /** A prime that divides a product divides one of the factors. */
  lemma Euclid(q: nat, p: nat, u: nat)
    requires Prime(q) && Times(p, u) >= 0 && Divides(q, Times(p, u)) && !Divides(q, p)
    ensures Divides(q, u)
  {
    hide Times, Rest, Quotient, Prime;
    var a, k := Inverse(q, p);
    var t := Factor(q, Times(p, u));
    Isolate(a, k, p, q, t, u);
    Multiple(q, u, Times(a, t) - Times(k, u));
  }

  lemma Isolate(a: int, k: int, p: int, q: int, t: int, u: int)
    requires Times(a, p) == Times(k, q) + 1 && Times(p, u) == Times(t, q)
    ensures u == Times(Times(a, t) - Times(k, u), q)
  {
    hide Times;
    Assoc(a, p, u);
    Spread(Times(k, q), 1, u);
    Unit(u);
    Assoc(k, q, u);
    Swap(q, u);
    Assoc(k, u, q);
    Assoc(a, t, q);
    TimesMinus(Times(a, t), Times(k, u), q);
  }

  /** One more prime divisor of a multiple of `d`. */
  lemma NextFactor(d: nat, q: nat, t: nat, n: nat) returns (s: nat)
    requires d > 0 && Prime(q) && n == Times(t, d) && Divides(q, n) && !Divides(q, d)
    ensures n == Times(s, Times(q, d))
  {
    hide Times, Rest, Quotient, Prime;
    Swap(t, d);
    Euclid(q, d, t);
    s := Factor(q, t);
    Assoc(s, q, d);
  }

  // ---- Trial division ----

  /** No divisor from 2 up to `hi`. */
  ghost predicate Clear(q: nat, hi: nat) { forall d :: 1 < d < hi ==> !Divides(d, q) }

  predicate Eight(q: nat, d: nat)
    requires d > 0
  {
    Rest(q, d) != 0 && Rest(q, d + 2) != 0 && Rest(q, d + 4) != 0 && Rest(q, d + 6) != 0 &&
    Rest(q, d + 8) != 0 && Rest(q, d + 10) != 0 && Rest(q, d + 12) != 0 && Rest(q, d + 14) != 0
  }

  lemma EvenDivisor(d: nat, q: nat)
    requires d > 0 && Divides(2, d) && Divides(d, q)
    ensures Divides(2, q)
  {
    hide Times, Rest, Quotient;
    var s := Factor(2, d);
    var t := Factor(d, q);
    Assoc(t, s, 2);
    Multiple(2, q, Times(t, s));
  }

  /** The odd numbers of a stretch of sixteen. */
  lemma OddOffset(d: nat, e: nat)
    requires 2 * d - 1 <= e < 2 * d + 15 && !Divides(2, e)
    ensures var k := e - (2 * d - 1); k == 0 || k == 2 || k == 4 || k == 6 || k == 8 || k == 10 || k == 12 || k == 14
  {
    var h := Quotient(e, 2);
    Divided(e, 2);
    assert e == 2 * h + 1;
  }

  lemma ClearMore(q: nat, d: nat)
    requires !Divides(2, q) && d > 1 && Clear(q, 2 * d - 1) && Eight(q, 2 * d - 1)
    ensures Clear(q, 2 * d + 15)
  {
    hide Rest;
    forall e | 1 < e < 2 * d + 15
      ensures !Divides(e, q)
    {
      if e >= 2 * d - 1 {
        if Divides(2, e) {
          if Divides(e, q) {
            EvenDivisor(e, q);
          }
        } else {
          OddOffset(d, e);
        }
      }
    }
  }

  lemma ClearStart(q: nat)
    requires !Divides(2, q)
    ensures Clear(q, 3)
  {}

  /** Four stretches at once. */
  lemma ClearFar(q: nat, d: nat)
    requires !Divides(2, q) && d > 1 && Clear(q, 2 * d - 1)
    requires Eight(q, 2 * d - 1) && Eight(q, 2 * d + 15) && Eight(q, 2 * d + 31) && Eight(q, 2 * d + 47)
    ensures Clear(q, 2 * d + 63)
  {
    hide Clear, Eight, Rest;
    ClearMore(q, d);
    ClearMore(q, d + 8);
    ClearMore(q, d + 16);
    ClearMore(q, d + 24);
  }

  /** A divisor comes with another one, and one of the two is small. */
  lemma SmallDivisor(q: nat, r: nat, d: nat)
    requires q < Times(r, r) && 1 < d < q && Divides(d, q)
    ensures !Clear(q, r)
  {
    hide Times, Rest, Quotient;
    var t := Factor(d, q);
    Unit(d);
    Swap(t, d);
    Multiple(t, q, d);
    if d >= r && t >= r {
      Bigger(d, t, r);
    }
  }

  lemma Bigger(d: nat, t: nat, r: nat)
    requires d >= r && t >= r
    ensures Times(d, t) >= Times(r, r)
  {}

  lemma IsPrime(q: nat, r: nat)
    requires q > 1 && q < Times(r, r) && Clear(q, r)
    ensures Prime(q)
  {
    hide Times, Rest, Clear;
    forall d | 1 < d < q && Divides(d, q)
      ensures false
    {
      SmallDivisor(q, r, d);
    }
  }

  lemma IsPrime3()
    ensures Prime(3)
  {
    IsPrime(3, 2);
  }

  lemma IsPrime5()
    ensures Prime(5)
  {
    IsPrime(5, 3);
  }

  lemma IsPrime431()
    ensures Prime(431)
  {
    hide Clear;
    ClearStart(431);
    ClearMore(431, 2);
    ClearMore(431, 10);
    IsPrime(431, 35);
  }

  lemma IsPrime8191()
    ensures Prime(8191)
  {
    hide Clear;
    ClearStart(8191);
    ClearFar(8191, 2);
    ClearMore(8191, 34);
    ClearMore(8191, 42);
    IsPrime(8191, 99);
  }

  lemma IsPrime9719()
    ensures Prime(9719)
  {
    hide Clear;
    ClearStart(9719);
    ClearFar(9719, 2);
    ClearMore(9719, 34);
    ClearMore(9719, 42);
    IsPrime(9719, 99);
  }

  lemma Clear195()
    ensures Clear(2099863, 195)
  {
    hide Clear;
    ClearStart(2099863);
    ClearFar(2099863, 2);
    ClearFar(2099863, 34);
    ClearFar(2099863, 66);
  }

  lemma Clear387()
    ensures Clear(2099863, 387)
  {
    hide Clear;
    Clear195();
    ClearFar(2099863, 98);
    ClearFar(2099863, 130);
    ClearFar(2099863, 162);
  }

  lemma Clear579()
    ensures Clear(2099863, 579)
  {
    hide Clear;
    Clear387();
    ClearFar(2099863, 194);
    ClearFar(2099863, 226);
    ClearFar(2099863, 258);
  }

  lemma Clear771()
    ensures Clear(2099863, 771)
  {
    hide Clear;
    Clear579();
    ClearFar(2099863, 290);
    ClearFar(2099863, 322);
    ClearFar(2099863, 354);
  }

  lemma Clear963()
    ensures Clear(2099863, 963)
  {
    hide Clear;
    Clear771();
    ClearFar(2099863, 386);
    ClearFar(2099863, 418);
    ClearFar(2099863, 450);
  }

  lemma Clear1155()
    ensures Clear(2099863, 1155)
  {
    hide Clear;
    Clear963();
    ClearFar(2099863, 482);
    ClearFar(2099863, 514);
    ClearFar(2099863, 546);
  }

  lemma Clear1347()
    ensures Clear(2099863, 1347)
  {
    hide Clear;
    Clear1155();
    ClearFar(2099863, 578);
    ClearFar(2099863, 610);
    ClearFar(2099863, 642);
  }

  lemma Clear1475()
    ensures Clear(2099863, 1475)
  {
    hide Clear;
    Clear1347();
    ClearFar(2099863, 674);
    ClearFar(2099863, 706);
  }

  lemma IsPrime2099863()
    ensures Prime(2099863)
  {
    hide Clear;
    Clear1475();
    IsPrime(2099863, 1475);
  }
}
