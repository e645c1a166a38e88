/** A table of segments: which segment answers for a key, and what the whole table stores. */
module TableTheory {
  import opened Common
  import opened Collect
  import opened Buckets
  import opened Placement
  import opened Entries

  function SegId(h: u64, n: nat): (i: nat)
    requires n > 0
    ensures i < n
  {
    (h as int / 0x1_0000_0000_0000) % n
  }

  ghost function Contents<K, V>(tv: seq<seq<View<K, V>>>): multiset<(K, V)> { FlatMap(Items<K, V>, tv) }

  /** Every entry sits in the segment its hash selects. */
  ghost predicate Routed<K(!new), V(!new)>(tv: seq<seq<View<K, V>>>, hash: K -> u64) {
    forall i, k, v :: 0 <= i < |tv| && (k, v) in Items(tv[i]) ==> SegId(hash(k), |tv|) == i
  }

  ghost predicate AllComplete<K(!new), V(!new)>(tv: seq<seq<View<K, V>>>, hash: K -> u64) {
    forall i :: 0 <= i < |tv| ==> Shape(tv[i]) && Complete(tv[i], hash)
  }

  /** A lookup of the key inspects a slot that holds it. */
  ghost predicate FindsIn<K(!new), V(!new)>(tv: seq<seq<View<K, V>>>, hash: K -> u64, k: K) {
    && |tv| > 0
    && var sv := tv[SegId(hash(k), |tv|)];
       Shape(sv) && exists b, s :: VisibleAt(sv, hash(k), b, s) && TakenAt(sv, b, s) && sv[b].slots[s].key == k
  }

  /** Every key of the map is found. */
  ghost predicate FindsAll<K(!new), V(!new)>(tv: seq<seq<View<K, V>>>, hash: K -> u64, m: map<K, V>) {
    forall k :: k in m ==> FindsIn(tv, hash, k)
  }

  ghost predicate AllSeen<K(!new), V(!new)>(tv: seq<seq<View<K, V>>>, hash: K -> u64) {
    forall i :: 0 <= i < |tv| ==> Shape(tv[i]) && AllVisible(tv[i], hash)
  }

  ghost predicate AllSound<K(!new), V(!new)>(tv: seq<seq<View<K, V>>>, hash: K -> u64) {
    forall i :: 0 <= i < |tv| ==> Sound(tv[i], hash)
  }

  lemma CompleteSeen<K(!new), V(!new)>(tv: seq<seq<View<K, V>>>, hash: K -> u64)
    requires AllComplete(tv, hash) && AllSound(tv, hash)
    ensures AllSeen(tv, hash)
  {
    hide Complete, Sound, AllVisible;
    forall i | 0 <= i < |tv|
      ensures AllVisible(tv[i], hash)
    {
      CompleteVisible(tv[i], hash);
    }
  }

  /** A stored entry has a slot in the segment of its key. */
  lemma SlotOf<K(!new), V(!new)>(tv: seq<seq<View<K, V>>>, hash: K -> u64, k: K, v: V) returns (b: int, s: int)
    requires |tv| > 0 && Routed(tv, hash) && (k, v) in Contents(tv) && Shape(tv[SegId(hash(k), |tv|)])
    ensures var sv := tv[SegId(hash(k), |tv|)]; TakenAt(sv, b, s) && sv[b].slots[s].key == k && sv[b].slots[s].value == v
  {
    hide Items, Contents, SegId, Routed;
    var sv := tv[SegId(hash(k), |tv|)];
    ContentsAt(tv, hash, k, v);
    ItemsMember(sv, (k, v));
    b, s :| TakenAt(sv, b, s) && (sv[b].slots[s].key, sv[b].slots[s].value) == (k, v);
  }

  /** A table that holds a map finds every key of it exactly if no stored slot is out of sight. */
  lemma SeenIffFinds<K(!new), V(!new)>(tv: seq<seq<View<K, V>>>, hash: K -> u64, m: map<K, V>)
    requires |tv| > 0 && Routed(tv, hash) && Holds(Contents(tv), m) && forall i :: 0 <= i < |tv| ==> Shape(tv[i])
    ensures AllSeen(tv, hash) <==> FindsAll(tv, hash, m)
  {
    hide Items, Contents, SegId, Routed, VisibleAt;
    if AllSeen(tv, hash) {
      forall k | k in m
        ensures FindsIn(tv, hash, k)
      {
        assert Contents(tv)[(k, m[k])] == 1;
        var b, s := SlotOf(tv, hash, k, m[k]);
        assert VisibleAt(tv[SegId(hash(k), |tv|)], hash(k), b, s);
      }
    }
    if FindsAll(tv, hash, m) {
      forall i, b, s | 0 <= i < |tv| && TakenAt(tv[i], b, s)
        ensures VisibleAt(tv[i], hash(tv[i][b].slots[s].key), b, s)
      {
        FoundSlotSeen(tv, hash, m, i, b, s);
      }
    }
  }

  lemma FoundSlotSeen<K(!new), V(!new)>(tv: seq<seq<View<K, V>>>, hash: K -> u64, m: map<K, V>, i: nat, b: int, s: int)
    requires |tv| > 0 && Routed(tv, hash) && Holds(Contents(tv), m) && FindsAll(tv, hash, m)
    requires i < |tv| && Shape(tv[i]) && TakenAt(tv[i], b, s)
    ensures VisibleAt(tv[i], hash(tv[i][b].slots[s].key), b, s)
  {
    hide Items, Contents, SegId, Routed, VisibleAt;
    var sv, x := tv[i], tv[i][b].slots[s];
    SlotStored(tv, hash, i, b, s);
    assert Contents(tv)[(x.key, x.value)] == if x.key in m && m[x.key] == x.value then 1 else 0;
    assert FindsIn(tv, hash, x.key);
    var c, r :| VisibleAt(sv, hash(x.key), c, r) && TakenAt(sv, c, r) && sv[c].slots[r].key == x.key;
    OneSlotEach(tv, hash, m, x.key, b, s, c, r);
  }

  lemma VisibleTaken<K(!new), V(!new)>(sv: seq<View<K, V>>, h: u64, b: int, s: int)
    requires Shape(sv) && VisibleAt(sv, h, b, s)
    ensures TakenAt(sv, b, s)
  {}

  /** What a slot holds is stored, and in the segment of its key. */
  lemma SlotStored<K(!new), V(!new)>(tv: seq<seq<View<K, V>>>, hash: K -> u64, i: nat, b: int, s: int)
    requires |tv| > 0 && Routed(tv, hash) && i < |tv| && Shape(tv[i]) && TakenAt(tv[i], b, s)
    ensures var x := tv[i][b].slots[s]; (x.key, x.value) in Contents(tv) && SegId(hash(x.key), |tv|) == i
  {
    hide Items, SegId, FlatMap;
    var x := tv[i][b].slots[s];
    ItemsMember(tv[i], (x.key, x.value));
    FlatMapMember(Items<K, V>, tv, (x.key, x.value));
  }

  /** In a table that holds a map, a key sits in one slot only. */
  lemma OneSlotEach<K(!new), V(!new)>(tv: seq<seq<View<K, V>>>, hash: K -> u64, m: map<K, V>, key: K, b: int, s: int,
                      c: int, r: int)
    requires |tv| > 0 && Routed(tv, hash) && Holds(Contents(tv), m)
    requires var sv := tv[SegId(hash(key), |tv|)];
             Shape(sv) && TakenAt(sv, b, s) && TakenAt(sv, c, r) && sv[b].slots[s].key == key == sv[c].slots[r].key
    ensures (b, s) == (c, r)
  {
    hide Items, Contents, SegId, Routed;
    var sv := tv[SegId(hash(key), |tv|)];
    if (b, s) != (c, r) {
      UniqueSlot(sv, b, s, c, r);
      ContentsAt(tv, hash, key, sv[b].slots[s].value);
      ContentsAt(tv, hash, key, sv[c].slots[r].value);
      assert false;
    }
  }

  lemma ContentsUpdate<K, V>(tv: seq<seq<View<K, V>>>, i: nat, sv: seq<View<K, V>>)
    requires i < |tv|
    ensures Contents(tv[i := sv]) + Items(tv[i]) == Contents(tv) + Items(sv)
  {
    hide Items, FlatMap;
    FlatMapUpdate(Items<K, V>, tv, i, sv);
  }

  /** A routed table stores an entry exactly as often as the segment of its key does. */
  lemma ContentsAt<K(!new), V(!new)>(tv: seq<seq<View<K, V>>>, hash: K -> u64, k: K, v: V)
    requires |tv| > 0 && Routed(tv, hash)
    ensures Contents(tv)[(k, v)] == Items(tv[SegId(hash(k), |tv|)])[(k, v)]
  {
    hide Items, FlatMap, SegId;
    FlatMapOnly(Items<K, V>, tv, SegId(hash(k), |tv|), (k, v));
  }

  lemma ContentsInsert<K, V>(tv: seq<seq<View<K, V>>>, i: nat, sv: seq<View<K, V>>, x: (K, V))
    requires i < |tv| && Items(sv) == Items(tv[i]) + multiset{x}
    ensures Contents(tv[i := sv]) == Contents(tv) + multiset{x}
  {
    hide Items, Contents;
    ContentsUpdate(tv, i, sv);
    assert Contents(tv) + Items(sv) == Contents(tv) + multiset{x} + Items(tv[i]);
    Cancel(Contents(tv[i := sv]), Contents(tv) + multiset{x}, Items(tv[i]));
  }

  lemma ContentsDelete<K, V>(tv: seq<seq<View<K, V>>>, i: nat, sv: seq<View<K, V>>, x: (K, V))
    requires i < |tv| && Items(tv[i]) == Items(sv) + multiset{x}
    ensures Contents(tv) == Contents(tv[i := sv]) + multiset{x}
  {
    hide Items, Contents;
    ContentsUpdate(tv, i, sv);
    assert Contents(tv[i := sv]) + Items(tv[i]) == Contents(tv[i := sv]) + multiset{x} + Items(sv);
    Cancel(Contents(tv[i := sv]) + multiset{x}, Contents(tv), Items(sv));
  }

  lemma ContentsReplace<K, V>(tv: seq<seq<View<K, V>>>, i: nat, sv: seq<View<K, V>>, x: (K, V), y: (K, V))
    requires i < |tv| && Items(sv) + multiset{x} == Items(tv[i]) + multiset{y}
    ensures Contents(tv[i := sv]) + multiset{x} == Contents(tv) + multiset{y}
  {
    hide Items, Contents;
    ContentsUpdate(tv, i, sv);
    Exchange(Contents(tv[i := sv]), Contents(tv), Items(tv[i]), Items(sv), multiset{x}, multiset{y});
  }

  /** Two slots holding the same key would make the entries more than a map. */
  lemma UniqueSlot<K(!new), V(!new)>(sv: seq<View<K, V>>, b: int, s: int, c: int, r: int)
    requires Shape(sv) && TakenAt(sv, b, s) && TakenAt(sv, c, r) && (b, s) != (c, r)
    requires sv[b].slots[s].key == sv[c].slots[r].key
    ensures var x, y := sv[b].slots[s], sv[c].slots[r];
            (x.key, x.value) in Items(sv) && (y.key, y.value) in Items(sv)
            && (x.value == y.value ==> Items(sv)[(x.key, x.value)] >= 2)
  {
    hide Items;
    var x, y := sv[b].slots[s], sv[c].slots[r];
    ItemsMember(sv, (x.key, x.value));
    ItemsMember(sv, (y.key, y.value));
    var sv' := WithSlot(sv, b, s, Free);
    ItemsWithSlot(sv, b, s, Free);
    ItemsMember(sv', (y.key, y.value));
    assert TakenAt(sv', c, r);
    assert (Items(sv) + SlotItems(Slot<K, V>.Free))[(y.key, y.value)] == Items(sv)[(y.key, y.value)];
    assert (Items(sv') + SlotItems(x))[(x.key, x.value)] == Items(sv')[(x.key, x.value)] + 1;
  }

  /** Doubling the table splits each old segment over the two new ones congruent to it. */
  lemma GrowDraws<K(!new), V(!new)>(tv: seq<seq<View<K, V>>>, tv': seq<seq<View<K, V>>>, hash: K -> u64,
                                    j: nat, k: K, v: V)
    requires |tv| > 0 && |tv'| == 2 * |tv| && j < |tv'|
    requires Routed(tv, hash) && Routed(tv', hash) && Contents(tv) == Contents(tv')
    ensures Items(tv'[j])[(k, v)] ==
            if SegId(hash(k), |tv'|) == j then Items(tv[j % |tv|])[(k, v)] else 0
  {
    hide Items, Contents;
    ContentsAt(tv, hash, k, v);
    ContentsAt(tv', hash, k, v);
    ModDouble(hash(k) as int / 0x1_0000_0000_0000, |tv|);
  }

  ghost predicate Draws<K(!new), V(!new)>(tv: seq<seq<View<K, V>>>, tv': seq<seq<View<K, V>>>, hash: K -> u64) {
    && |tv| > 0 && |tv'| == 2 * |tv|
    && forall j, k, v :: 0 <= j < |tv'| ==>
         Items(tv'[j])[(k, v)] == if SegId(hash(k), |tv'|) == j then Items(tv[j % |tv|])[(k, v)] else 0
  }

  /** Growth keeps every entry, sends each to its segment, and leaves nothing untracked. */
  ghost predicate Grown<K(!new), V(!new)>(tv: seq<seq<View<K, V>>>, tv': seq<seq<View<K, V>>>, hash: K -> u64) {
    AllComplete(tv', hash) && Contents(tv') == Contents(tv) && Draws(tv, tv', hash)
  }

  lemma GrowDrawsAll<K(!new), V(!new)>(tv: seq<seq<View<K, V>>>, tv': seq<seq<View<K, V>>>, hash: K -> u64)
    requires |tv| > 0 && |tv'| == 2 * |tv|
    requires Routed(tv, hash) && Routed(tv', hash) && Contents(tv) == Contents(tv') && AllComplete(tv', hash)
    ensures Grown(tv, tv', hash)
  {
    hide Items, SegId, Routed, Contents, AllComplete;
    forall j, k, v | 0 <= j < |tv'|
      ensures Items(tv'[j])[(k, v)] == if SegId(hash(k), |tv'|) == j then Items(tv[j % |tv|])[(k, v)] else 0
    {
      GrowDraws(tv, tv', hash, j, k, v);
    }
  }

  lemma ModDouble(x: nat, n: nat)
    requires n > 0
    ensures (x % (2 * n)) % n == x % n
  {
    var q, r := x / (2 * n), x % (2 * n);
    assert x == (2 * n) * q + r;
    if r < n {
      Regroup(n, q, r);
      ModUnique(x, n, 2 * q, r);
      ModUnique(r, n, 0, r);
    } else {
      Regroup(n, q, r);
      ModUnique(x, n, 2 * q + 1, r - n);
      ModUnique(r, n, 1, r - n);
    }
  }

  lemma Regroup(n: nat, q: nat, r: nat)
    ensures (2 * n) * q + r == n * (2 * q) + r == n * (2 * q + 1) + (r - n)
  {}

  lemma ModUnique(x: nat, n: nat, q: nat, r: nat)
    requires n > 0 && r < n && x == n * q + r
    ensures x % n == r
  {
    var q', r' := x / n, x % n;
    assert n * (q' - q) == r - r';
    SmallMultiple(n, q' - q);
  }

  lemma SmallMultiple(n: nat, d: int)
    requires 0 - n < n * d < n
    ensures d == 0
  {
  }
}
