/** List values: removing occurrences from either end, and index ranges. */
module ListValues {
  import opened Common
  import opened Collect

  type Items = seq<bytes>

  // ---- Removing occurrences ----

  /** Without the first `n` occurrences of `v`. */
  function RemoveFirst(s: Items, v: bytes, n: int): (r: Items)
    ensures |r| <= |s|
    decreases |s|
  {
    if s == [] then []
    else if n > 0 && s[0] == v then RemoveFirst(s[1..], v, n - 1)
    else [s[0]] + RemoveFirst(s[1..], v, n)
  }

  /** How often `v` occurs. */
  function Occurrences(s: Items, v: bytes): (n: nat)
    ensures n <= |s|
  {
    if s == [] then 0 else (if s[0] == v then 1 else 0) + Occurrences(s[1..], v)
  }

  /** Exactly as many are removed as asked for and present; nothing else is touched. */
  lemma {:induction false} RemovedCount(s: Items, v: bytes, n: int)
    ensures var k := if n < 0 then 0 else if n < Occurrences(s, v) then n else Occurrences(s, v);
            |RemoveFirst(s, v, n)| == |s| - k && Occurrences(RemoveFirst(s, v, n), v) == Occurrences(s, v) - k
    ensures forall w :: w != v ==> Occurrences(RemoveFirst(s, v, n), w) == Occurrences(s, w)
    decreases |s|
  {
    if s != [] {
      var rest := if n > 0 && s[0] == v then RemoveFirst(s[1..], v, n - 1) else RemoveFirst(s[1..], v, n);
      RemovedCount(s[1..], v, if n > 0 && s[0] == v then n - 1 else n);
      if !(n > 0 && s[0] == v) {
        assert ([s[0]] + rest)[1..] == rest;
      }
    }
  }

  /** The first occurrence goes first: what stands before it stays, and the rest loses one less. */
  lemma {:induction false} FirstGoes(a: Items, v: bytes, b: Items, n: int)
    requires v !in a
    ensures RemoveFirst(a, v, n) == a
    ensures RemoveFirst(a + [v] + b, v, n) == if n > 0 then a + RemoveFirst(b, v, n - 1) else a + [v] + RemoveFirst(b, v, n)
    ensures n <= 0 ==> RemoveFirst(b, v, n) == b
    decreases |a| + |b|
  {
    var s := a + [v] + b;
    if a == [] {
      assert s == [v] + b && s[1..] == b;
      if b != [] {
        NoneGo(b, v, n);
      }
    } else {
      assert s[1..] == a[1..] + [v] + b && s[0] == a[0];
      FirstGoes(a[1..], v, b, n);
      assert [a[0]] + a[1..] == a;
    }
  }

  lemma {:induction false} NoneGo(b: Items, v: bytes, n: int)
    ensures n <= 0 ==> RemoveFirst(b, v, n) == b
    decreases |b|
  {
    if b != [] {
      NoneGo(b[1..], v, n);
    }
  }

  /** `retain` with a counter: occurrences go while fewer than `max` have gone. */
  method Retain(s: Items, v: bytes, max: int) returns (kept: Items, removed: int)
    ensures kept == RemoveFirst(s, v, max) && removed == |s| - |kept|
  {
    kept, removed := [], 0;
    NothingKept(s, v, max);
    hide RemoveFirst;
    for i := 0 to |s|
      invariant kept + RemoveFirst(s[i..], v, max - removed) == RemoveFirst(s, v, max)
      invariant |kept| + removed == i && removed >= 0
    {
      RetainStep(kept, s, i, v, max - removed);
      if removed < max && s[i] == v {
        removed := removed + 1;
      } else {
        kept := kept + [s[i]];
      }
    }
  }

  lemma NothingKept(s: Items, v: bytes, n: int)
    ensures [] + RemoveFirst(s[0..], v, n) == RemoveFirst(s, v, n)
    ensures forall m :: RemoveFirst(s[|s|..], v, m) == []
  {
    assert s[0..] == s && s[|s|..] == [];
  }

  lemma RetainStep(kept: Items, s: Items, i: nat, v: bytes, n: int)
    requires i < |s|
    ensures kept + RemoveFirst(s[i..], v, n) ==
            if n > 0 && s[i] == v then kept + RemoveFirst(s[i + 1..], v, n - 1)
            else kept + [s[i]] + RemoveFirst(s[i + 1..], v, n)
  {
    assert s[i..][1..] == s[i + 1..] && s[i..][0] == s[i];
  }

  /** Without the last `n` occurrences. */
  function RemoveLast(s: Items, v: bytes, n: int): Items
    decreases |s|
  {
    if s == [] then []
    else
      var front, last := s[..|s| - 1], s[|s| - 1];
      if n > 0 && last == v then RemoveLast(front, v, n - 1) else RemoveLast(front, v, n) + [last]
  }

  lemma ReversedCons(s: Items, x: bytes)
    ensures Reversed([x] + s) == Reversed(s) + [x]
  {}

  /** Removing from the tail is reversing, removing from the head and reversing back. */
  lemma {:induction false} RemoveLastMirrors(s: Items, v: bytes, n: int)
    ensures RemoveLast(s, v, n) == Reversed(RemoveFirst(Reversed(s), v, n))
    decreases |s|
  {
    if s != [] {
      var front, last := s[..|s| - 1], s[|s| - 1];
      assert Reversed(s)[0] == last && Reversed(s)[1..] == Reversed(front);
      if n > 0 && last == v {
        RemoveLastMirrors(front, v, n - 1);
      } else {
        RemoveLastMirrors(front, v, n);
        ReversedCons(RemoveFirst(Reversed(front), v, n), last);
      }
    }
  }

  /** The positions that the walk from the tail collects, last first. */
  function Indices(s: Items, v: bytes, n: int): seq<int>
    decreases |s|
  {
    if s == [] then []
    else
      var front := s[..|s| - 1];
      if n > 0 && s[|s| - 1] == v then [|s| - 1] + Indices(front, v, n - 1) else Indices(front, v, n)
  }

  function Without(s: Items, i: int): (r: Items)
    requires 0 <= i < |s|
    ensures |r| == |s| - 1
  {
    s[..i] + s[i + 1..]
  }

  /** Falling positions, all below `bound`. */
  ghost predicate Falling(idx: seq<int>, bound: int)
    decreases |idx|
  {
    idx == [] || (0 <= idx[0] < bound && Falling(idx[1..], idx[0]))
  }

  lemma FallingMore(idx: seq<int>, bound: int, more: int)
    requires Falling(idx, bound) && bound <= more
    ensures Falling(idx, more)
    ensures 0 <= bound < more ==> Falling([bound] + idx, more)
  {
    assert ([bound] + idx)[1..] == idx;
  }

  lemma {:induction false} IndicesFall(s: Items, v: bytes, n: int)
    ensures Falling(Indices(s, v, n), |s|)
    decreases |s|
  {
    if s != [] {
      var front := s[..|s| - 1];
      var m := if n > 0 && s[|s| - 1] == v then n - 1 else n;
      IndicesFall(front, v, m);
      FallingMore(Indices(front, v, m), |front|, |s|);
    }
  }

  function WithoutAll(s: Items, idx: seq<int>): Items
    requires Falling(idx, |s|)
    decreases |idx|
  {
    if idx == [] then s
    else
      FallingMore(idx[1..], idx[0], |s| - 1);
      WithoutAll(Without(s, idx[0]), idx[1..])
  }

  lemma {:induction false} WithoutAllAppend(s: Items, x: bytes, idx: seq<int>)
    requires Falling(idx, |s|) && Falling(idx, |s| + 1)
    ensures WithoutAll(s + [x], idx) == WithoutAll(s, idx) + [x]
    decreases |idx|
  {
    if idx != [] {
      FallingMore(idx[1..], idx[0], |s| - 1);
      FallingMore(idx[1..], idx[0], |s|);
      assert Without(s + [x], idx[0]) == Without(s, idx[0]) + [x];
      WithoutAllAppend(Without(s, idx[0]), x, idx[1..]);
    }
  }

  /** Removing the collected positions one by one removes the last occurrences. */
  lemma {:induction false} IndicesRemove(s: Items, v: bytes, n: int)
    ensures Falling(Indices(s, v, n), |s|) && WithoutAll(s, Indices(s, v, n)) == RemoveLast(s, v, n)
    decreases |s|
  {
    IndicesFall(s, v, n);
    if s != [] {
      var front, last := s[..|s| - 1], s[|s| - 1];
      if n > 0 && last == v {
        IndicesRemove(front, v, n - 1);
        assert Without(s, |s| - 1) == front;
        assert Indices(s, v, n)[1..] == Indices(front, v, n - 1);
      } else {
        IndicesRemove(front, v, n);
        assert s == front + [last];
        WithoutAllAppend(front, last, Indices(front, v, n));
      }
    }
  }

  /** The branch for a negative count: collect positions from the tail, then remove them. */
  method RemoveFromTail(s: Items, v: bytes, max: int) returns (kept: Items, removed: int)
    ensures kept == Reversed(RemoveFirst(Reversed(s), v, max)) && removed == |s| - |kept|
  {
    hide Indices, RemoveFirst, RemoveLast, Reversed, WithoutAll;
    var indices: seq<int> := [];
    removed := 0;
    var i := |s|;
    NothingCollected(s, v, max);
    while i > 0
      invariant 0 <= i <= |s| && removed == |indices|
      invariant indices + Indices(s[..i], v, max - removed) == Indices(s, v, max)
    {
      CollectStep(indices, s, i, v, max - removed);
      i := i - 1;
      if removed < max && s[i] == v {
        indices := indices + [i];
        removed := removed + 1;
      }
    }
    assert indices + [] == indices;
    IndicesRemove(s, v, max);
    RemoveLastMirrors(s, v, max);
    kept := RemovePositions(s, indices);
  }

  lemma NothingCollected(s: Items, v: bytes, n: int)
    ensures [] + Indices(s[..|s|], v, n) == Indices(s, v, n)
    ensures forall m :: Indices(s[..0], v, m) == []
  {
    assert s[..|s|] == s && s[..0] == [];
  }

  lemma CollectStep(indices: seq<int>, s: Items, i: nat, v: bytes, n: int)
    requires 0 < i <= |s|
    ensures indices + Indices(s[..i], v, n) ==
            if n > 0 && s[i - 1] == v then indices + [i - 1] + Indices(s[..i - 1], v, n - 1)
            else indices + Indices(s[..i - 1], v, n)
  {
    assert s[..i][..i - 1] == s[..i - 1] && s[..i][i - 1] == s[i - 1];
  }

  method RemovePositions(s: Items, indices: seq<int>) returns (kept: Items)
    requires Falling(indices, |s|)
    ensures kept == WithoutAll(s, indices) && |kept| == |s| - |indices|
  {
    kept := s;
    var j := 0;
    assert indices[0..] == indices;
    while j < |indices|
      invariant 0 <= j <= |indices| && Falling(indices[j..], |kept|)
      invariant WithoutAll(kept, indices[j..]) == WithoutAll(s, indices)
      invariant |kept| == |s| - j
    {
      assert indices[j..][1..] == indices[j + 1..] && indices[j..][0] == indices[j];
      FallingMore(indices[j + 1..], indices[j], |kept| - 1);
      kept := Without(kept, indices[j]);
      j := j + 1;
    }
  }

  // ---- Index ranges ----

  /** The cast of a signed 64-bit number to an index. */
  function AsIndex(n: int): nat
    requires n >= I64_MIN
  {
    if n < 0 then n + 0x1_0000_0000_0000_0000 else n
  }

  function Max0(n: int): nat { if n < 0 then 0 else n }

  function First(len: nat, start: int): nat { if start < 0 then Max0(len + start) else if start < len then start else len }

  function Last(len: nat, stop: int): nat {
    AsIndex(if stop < 0 then Max0(len + stop) else if stop < len - 1 then stop else len - 1)
  }

  /** What a client of Redis expects: positions counted from the end if negative, both ends included. */
  function Expected(s: Items, start: int, stop: int): Items {
    var n := |s|;
    var a := Max0(if start < 0 then n + start else start);
    var b := if stop < 0 then n + stop else if stop < n then stop else n - 1;
    if a > b || a >= n then [] else s[a..b + 1]
  }

  function Range(s: Items, start: int, stop: int): (r: Items)
  {
    var a, b := First(|s|, start), Last(|s|, stop);
    if a > b || a >= |s| then [] else s[a..b + 1]
  }

  /** A stop that lies before the list is taken for its first element; otherwise ranges are as expected. */
  lemma RangeIff(s: Items, start: int, stop: int)
    ensures Range(s, start, stop) == Expected(s, start, stop) <==> !(s != [] && stop < -|s| && (start == 0 || start <= -|s|))
  {
    if s != [] && stop < -|s| && (start == 0 || start <= -|s|) {
      assert Range(s, start, stop) == s[..1];
    }
  }

  /** Position `i` of a list of length `len` lies between the two ends. */
  predicate Shown(len: nat, start: int, stop: int, i: nat) { First(len, start) <= i <= Last(len, stop) }

  /** The elements at the positions between the two ends, in order, from position `i` on. */
  function Selected(s: Items, start: int, stop: int, i: nat := 0): Items
    requires i <= |s|
    decreases |s| - i
  {
    if i == |s| then []
    else (if Shown(|s|, start, stop, i) then [s[i]] else []) + Selected(s, start, stop, i + 1)
  }

  lemma {:induction false} SelectedFrom(s: Items, start: int, stop: int, i: nat)
    requires i <= |s|
    ensures var a, b := First(|s|, start), Last(|s|, stop);
            Selected(s, start, stop, i) ==
            if a > b || a >= |s| || i > b then [] else s[(if i < a then a else i)..b + 1]
    decreases |s| - i
  {
    if i < |s| {
      SelectedFrom(s, start, stop, i + 1);
    }
  }

  /** A range is exactly the elements at the positions between its two ends, in order. */
  lemma RangeSelects(s: Items, start: int, stop: int)
    ensures Range(s, start, stop) == Selected(s, start, stop)
  {
    SelectedFrom(s, start, stop, 0);
  }

  method LRange(s: Items, start: int, stop: int) returns (r: Items)
    ensures r == Selected(s, start, stop) == Range(s, start, stop)
  {
    RangeSelects(s, start, stop);
    hide Selected;
    var a, b := First(|s|, start), Last(|s|, stop);
    if a > b || a >= |s| {
      return [];
    }
    r := [];
    for i := a to b + 1
      invariant r == s[a..i]
    {
      r := r + [s[i]];
    }
  }

  /** Trimming drains the positions between the two ends and keeps what was drained: what the range would have shown. */
  method LTrim(s: Items, start: int, stop: int) returns (r: Items)
    ensures r == Selected(s, start, stop) == Range(s, start, stop)
  {
    RangeSelects(s, start, stop);
    hide Selected;
    var a, b := First(|s|, start), Last(|s|, stop);
    if a > b || a >= |s| {
      return [];
    }
    var rest := s;
    r := [];
    for i := a to b + 1
      invariant r == s[a..i] && rest == s[..a] + s[i..]
    {
      r := r + [rest[a]];
      rest := Without(rest, a);
    }
  }
}
