/** Division with remainder, one product at a time. */
module Numbers {
  function Times(q: int, n: int): int { q * n }

  function Quotient(a: int, n: int): int
    requires n > 0
  {
    a / n
  }

  function Rest(a: int, n: int): (r: int)
    requires n > 0
    ensures 0 <= r < n
  {
    a % n
  }

  lemma Divided(a: int, n: int)
    requires n > 0
    ensures a == Times(Quotient(a, n), n) + Rest(a, n)
  {}

  lemma TimesMinus(x: int, y: int, n: int)
    ensures Times(x - y, n) == Times(x, n) - Times(y, n)
  {}

  /** No multiple of `n` lies strictly between its neighbours. */
  lemma Multiples(q: int, n: int)
    requires n > 0
    ensures (q >= 1 ==> Times(q, n) >= n) && (q <= -1 ==> Times(q, n) <= -n) && (q == 0 ==> Times(q, n) == 0)
  {}

  /** There is only one way to divide. */
  lemma DividedOnce(a: int, n: int, q: int, r: int)
    requires n > 0 && a == Times(q, n) + r && 0 <= r < n
    ensures q == Quotient(a, n) && r == Rest(a, n)
  {
    hide Times, Quotient, Rest;
    Divided(a, n);
    TimesMinus(q, Quotient(a, n), n);
    Multiples(q - Quotient(a, n), n);
  }

  /** Two numbers leave the same rest exactly if they differ by a multiple. */
  lemma SameRest(a: int, b: int, n: int)
    requires n > 0
    ensures Rest(a, n) == Rest(b, n) <==> Rest(a - b, n) == 0
  {
    hide Times, Quotient, Rest;
    var q, q', m := Quotient(a, n), Quotient(b, n), Quotient(a - b, n);
    Divided(a, n);
    Divided(b, n);
    Divided(a - b, n);
    TimesMinus(q, q', n);
    TimesMinus(q - q', m, n);
    Multiples(q - q' - m, n);
  }
}
