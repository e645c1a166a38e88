/** Machine words as bytes, in both byte orders. */
module Words {
  import opened Common

  function Pow256(n: nat): (r: nat)
    ensures r > 0
  {
    if n == 0 then 1 else 256 * Pow256(n - 1)
  }

  lemma Powers()
    ensures Pow256(1) == 0x100 && Pow256(2) == 0x1_0000
    ensures Pow256(4) == 0x1_0000_0000 && Pow256(8) == 0x1_0000_0000_0000_0000
  {
    assert Pow256(4) == 0x1_0000_0000;
    assert Pow256(6) == 0x1_0000_0000_0000;
  }

  /** `to_le_bytes` */
  function Le(v: nat, n: nat): (s: bytes)
    ensures |s| == n
    decreases n
  {
    if n == 0 then [] else [(v % 256) as byte] + Le(v / 256, n - 1)
  }

  /** `from_le_bytes` */
  function LeValue(s: bytes): nat { if s == [] then 0 else s[0] as int + 256 * LeValue(s[1..]) }

  /** `to_be_bytes` */
  function Be(v: nat, n: nat): (s: bytes)
    ensures |s| == n
    decreases n
  {
    if n == 0 then [] else Be(v / 256, n - 1) + [(v % 256) as byte]
  }

  /** `from_be_bytes` */
  function BeValue(s: bytes): nat {
    if s == [] then 0 else 256 * BeValue(s[..|s| - 1]) + s[|s| - 1] as int
  }

  lemma {:induction false} LeRoundTrip(v: nat, n: nat)
    requires v < Pow256(n)
    ensures LeValue(Le(v, n)) == v
    decreases n
  {
    if n > 0 {
      LeRoundTrip(v / 256, n - 1);
      assert Le(v, n)[1..] == Le(v / 256, n - 1);
    }
  }

  lemma {:induction false} BeRoundTrip(v: nat, n: nat)
    requires v < Pow256(n)
    ensures BeValue(Be(v, n)) == v
    decreases n
  {
    if n > 0 {
      BeRoundTrip(v / 256, n - 1);
      assert Be(v, n)[..n - 1] == Be(v / 256, n - 1);
    }
  }

  /** The place-value reading with the lowest place first. */
  function Ascending(s: bytes): nat {
    if s == [] then 0 else Ascending(s[..|s| - 1]) + s[|s| - 1] as int * Pow256(|s| - 1)
  }

  /** The place-value reading with the highest place first. */
  function Descending(s: bytes): nat {
    if s == [] then 0 else s[0] as int * Pow256(|s| - 1) + Descending(s[1..])
  }

  lemma Regroup(a: int, p: int)
    ensures a * (256 * p) == 256 * (a * p)
  {}

  /** Little-endian: the byte at place i counts 256 to the power i. */
  lemma {:induction false} LittleEndian(s: bytes)
    ensures LeValue(s) == Ascending(s)
    decreases |s|
  {
    if |s| == 1 {
      assert s[1..] == [] && s[..0] == [];
    } else if |s| > 1 {
      var n := |s| - 1;
      LittleEndian(s[1..]);
      LittleEndian(s[..n]);
      LittleEndian(s[1..n]);
      assert s[1..][..n - 1] == s[1..n] && s[..n][1..] == s[1..n];
      assert s[1..][n - 1] == s[n] && s[..n][0] == s[0];
      Regroup(s[n] as int, Pow256(n - 1));
    }
  }

  /** Big-endian: the last byte counts one, the byte before it 256, and so on. */
  lemma {:induction false} BigEndian(s: bytes)
    ensures BeValue(s) == Descending(s)
    decreases |s|
  {
    if |s| == 1 {
      assert s[1..] == [] && s[..0] == [];
    } else if |s| > 1 {
      var n := |s| - 1;
      BigEndian(s[1..]);
      BigEndian(s[..n]);
      BigEndian(s[1..n]);
      assert s[1..][..n - 1] == s[1..n] && s[..n][1..] == s[1..n];
      assert s[1..][n - 1] == s[n] && s[..n][0] == s[0];
      Regroup(s[0] as int, Pow256(n - 1));
    }
  }

  lemma {:induction false} LeBound(s: bytes)
    ensures LeValue(s) < Pow256(|s|)
  {
    if s != [] {
      LeBound(s[1..]);
    }
  }

  lemma {:induction false} BeBound(s: bytes)
    ensures BeValue(s) < Pow256(|s|)
  {
    if s != [] {
      BeBound(s[..|s| - 1]);
    }
  }

  /** The unsigned word with the same bits as the signed `n`: an `as` cast that truncates to `size` bytes. */
  function Truncate(n: int, size: nat): (r: nat)
    ensures r < Pow256(size)
  {
    n % Pow256(size)
  }

  /** The signed reading of an unsigned word of `size` bytes. */
  function Signed(v: nat, size: nat): int { if 2 * v < Pow256(size) then v else v - Pow256(size) }

  lemma SignedRoundTrip(n: int, size: nat)
    requires 0 <= 2 * n + Pow256(size) && 2 * n < Pow256(size)
    ensures Signed(Truncate(n, size), size) == n
  {
    hide Pow256;
    var p := Pow256(size);
    if n < 0 {
      Wraps(n, p);
    } else {
      Fits(n, p);
    }
  }

  lemma Wraps(n: int, p: nat)
    requires 0 < p && n < 0 <= n + p
    ensures n % p == n + p
  {
    assert (n / p + 1) * p == n / p * p + p;
    Quotient(n / p + 1, p);
  }

  lemma Quotient(k: int, p: nat)
    ensures k >= 1 ==> k * p >= p
    ensures k <= -1 ==> k * p + p <= 0
  {
    if k >= 1 {
      assert k * p == (k - 1) * p + p;
    } else if k <= -1 {
      assert k * p + p == (k + 1) * p;
    }
  }

  lemma Fits(n: int, p: nat)
    requires 0 <= n < p
    ensures n % p == n
  {}
}
