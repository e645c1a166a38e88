/** Multisets collected over a sequence: what a bucket, a segment or a table holds. */
module Collect {

  function FlatMap<S, T>(f: S -> multiset<T>, xs: seq<S>): multiset<T> {
    if xs == [] then multiset{} else f(xs[0]) + FlatMap(f, xs[1..])
  }

  function Reversed<T>(s: seq<T>): (r: seq<T>)
    ensures |r| == |s| && forall j :: 0 <= j < |s| ==> r[j] == s[|s| - 1 - j]
  {
    seq(|s|, j requires 0 <= j < |s| => s[|s| - 1 - j])
  }

  lemma Joined<T>(a: seq<T>, b: seq<T>, c: seq<T>)
    ensures a + (b + c) == a + b + c
  {}

  /** Replacing element `i` swaps its contribution and leaves all others alone. */
  lemma {:induction false} FlatMapUpdate<S, T>(f: S -> multiset<T>, xs: seq<S>, i: nat, x: S)
    requires i < |xs|
    ensures FlatMap(f, xs[i := x]) + f(xs[i]) == FlatMap(f, xs) + f(x)
  {
    if i == 0 {
      assert xs[i := x][1..] == xs[1..];
    } else {
      var ys := xs[i := x];
      assert ys[1..] == xs[1..][i - 1 := x];
      FlatMapUpdate(f, xs[1..], i - 1, x);
      calc {
        FlatMap(f, ys) + f(xs[i]);
        f(xs[0]) + (FlatMap(f, ys[1..]) + f(xs[1..][i - 1]));
        f(xs[0]) + (FlatMap(f, xs[1..]) + f(x));
        FlatMap(f, xs) + f(x);
      }
    }
  }

  /** A multiset is part of the whole exactly when some element contributes it. */
  lemma {:induction false} FlatMapMember<S, T>(f: S -> multiset<T>, xs: seq<S>, t: T)
    ensures t in FlatMap(f, xs) <==> exists i :: 0 <= i < |xs| && t in f(xs[i])
  {
    if xs != [] {
      FlatMapMember(f, xs[1..], t);
      if t in f(xs[0]) {
      } else if exists i :: 0 <= i < |xs| && t in f(xs[i]) {
        var i :| 0 <= i < |xs| && t in f(xs[i]);
        assert xs[1..][i - 1] == xs[i];
      }
      if exists i :: 0 <= i < |xs[1..]| && t in f(xs[1..][i]) {
        var i :| 0 <= i < |xs[1..]| && t in f(xs[1..][i]);
        assert xs[i + 1] == xs[1..][i];
      }
    }
  }

  lemma {:induction false} FlatMapBound<S, T>(f: S -> multiset<T>, xs: seq<S>)
    requires forall x :: x in xs ==> |f(x)| <= 1
    ensures |FlatMap(f, xs)| <= |xs|
  {
    if xs != [] {
      FlatMapBound(f, xs[1..]);
    }
  }

  lemma {:induction false} FlatMapEmpty<S, T>(f: S -> multiset<T>, xs: seq<S>)
    requires forall x :: x in xs ==> f(x) == multiset{}
    ensures FlatMap(f, xs) == multiset{}
  {
    if xs != [] {
      FlatMapEmpty(f, xs[1..]);
    }
  }

  /** When only element `i` may contribute `t`, the whole holds `t` as often as that element. */
  lemma {:induction false} FlatMapOnly<S, T>(f: S -> multiset<T>, xs: seq<S>, i: nat, t: T)
    requires i < |xs|
    requires forall j :: 0 <= j < |xs| && j != i ==> t !in f(xs[j])
    ensures FlatMap(f, xs)[t] == f(xs[i])[t]
  {
    if i == 0 {
      FlatMapMember(f, xs[1..], t);
      assert t !in FlatMap(f, xs[1..]);
    } else {
      assert forall j :: 0 <= j < |xs[1..]| ==> xs[1..][j] == xs[j + 1];
      FlatMapOnly(f, xs[1..], i - 1, t);
    }
  }

  lemma Cancel<T>(a: multiset<T>, b: multiset<T>, x: multiset<T>)
    requires a + x == b + x
    ensures a == b
  {
    forall t ensures a[t] == b[t] {
      assert (a + x)[t] == (b + x)[t];
    }
  }

  lemma SubsetSize<T>(a: multiset<T>, b: multiset<T>)
    requires a <= b
    ensures |a| <= |b|
    ensures |a| == |b| ==> a == b
  {
    assert b == a + (b - a);
  }
}
