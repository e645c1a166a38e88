/** When a collection of entries is a map: the reference the hash table is compared with. */
module Entries {
  import opened Common

  function Lookup<K(==), V>(m: map<K, V>, k: K): Option<V> { if k in m then Some(m[k]) else None }

  /** The entries are exactly those of the map, each stored once. */
  ghost predicate Holds<K(!new), V(!new)>(entries: multiset<(K, V)>, m: map<K, V>) {
    forall k, v :: entries[(k, v)] == if k in m && m[k] == v then 1 else 0
  }

  /** No key has two entries, and none is stored twice. */
  ghost predicate KeysOnce<K(!new), V(!new)>(entries: multiset<(K, V)>) {
    forall k, v, w :: (k, v) in entries && (k, w) in entries ==> v == w && entries[(k, v)] == 1
  }

  lemma HoldsOnce<K(!new), V(!new)>(entries: multiset<(K, V)>, m: map<K, V>)
    requires Holds(entries, m)
    ensures KeysOnce(entries)
  {}

  lemma HoldsEmpty<K(!new), V(!new)>()
    ensures Holds<K, V>(multiset{}, map[])
  {}

  lemma HoldsInsert<K(!new), V(!new)>(e: multiset<(K, V)>, m: map<K, V>, k: K, v: V)
    requires Holds(e, m) && k !in m
    ensures Holds(e + multiset{(k, v)}, m[k := v])
  {}

  lemma HoldsReplace<K(!new), V(!new)>(e: multiset<(K, V)>, e': multiset<(K, V)>, m: map<K, V>, k: K, v: V, w: V)
    requires Holds(e, m) && (k, v) in e && e' + multiset{(k, v)} == e + multiset{(k, w)}
    ensures k in m && m[k] == v && Holds(e', m[k := w])
  {
    forall l, u ensures e'[(l, u)] == if l in m[k := w] && m[k := w][l] == u then 1 else 0 {
      assert (e' + multiset{(k, v)})[(l, u)] == (e + multiset{(k, w)})[(l, u)];
    }
  }

  lemma HoldsRemove<K(!new), V(!new)>(e: multiset<(K, V)>, e': multiset<(K, V)>, m: map<K, V>, k: K, v: V)
    requires Holds(e, m) && e == e' + multiset{(k, v)}
    ensures k in m && m[k] == v && Holds(e', m - {k})
  {
    assert e[(k, v)] >= 1;
    forall l, u ensures e'[(l, u)] == if l in m - {k} && (m - {k})[l] == u then 1 else 0 {
      assert e[(l, u)] == (e' + multiset{(k, v)})[(l, u)];
    }
  }

  /** As many entries as the map has keys. */
  lemma {:induction false} HoldsSize<K(!new), V(!new)>(e: multiset<(K, V)>, m: map<K, V>)
    requires Holds(e, m)
    ensures |e| == |m|
    decreases |e|
  {
    if e == multiset{} {
      assert forall k :: k in m ==> e[(k, m[k])] == 1;
      assert m == map[];
    } else {
      var x :| x in e;
      assert x == (x.0, x.1);
      HoldsRemove(e, e - multiset{x}, m, x.0, x.1);
      HoldsSize(e - multiset{x}, m - {x.0});
      assert |m| == |m - {x.0}| + 1 by {
        assert m.Keys == (m - {x.0}).Keys + {x.0};
        assert |m.Keys| == |(m - {x.0}).Keys| + 1;
      }
    }
  }
}
