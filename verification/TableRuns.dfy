/** Whole runs of a hash table, against a plain map. */
module TableRuns {
  import opened Common
  import opened Buckets
  import opened Placement
  import opened Segments
  import opened Entries
  import opened TableTheory
  import opened DashTables

  datatype Op<+K, +V> = Find(key: K) | Insert(key: K, value: V) | Remove(key: K)

  function MapAfter<K(==), V>(m: map<K, V>, op: Op<K, V>): map<K, V> {
    match op
    case Find(_) => m
    case Insert(k, v) => m[k := v]
    case Remove(k) => m - {k}
  }

  /** The map after a run, and what it answers: every operation returns the value the key had before. */
  function MapAfterAll<K(==), V>(ops: seq<Op<K, V>>): map<K, V> {
    if ops == [] then map[] else MapAfter(MapAfterAll(ops[..|ops| - 1]), ops[|ops| - 1])
  }

  ghost predicate AnswersLikeMap<K(!new), V(!new)>(ops: seq<Op<K, V>>, replies: seq<Option<V>>)
    requires |replies| == |ops|
  {
    forall i :: 0 <= i < |ops| ==> replies[i] == Lookup(MapAfterAll(ops[..i]), ops[i].key)
  }

  /** The removals of a run never make another bucket forget a stash item. */
  ghost predicate Guarded<K(!new), V(!new)>(ops: seq<Op<K, V>>, trace: seq<seq<seq<View<K, V>>>>, hash: K -> u64)
    requires |trace| > |ops|
  {
    forall i :: 0 <= i < |ops| && ops[i].Remove? ==> GuardedStep(trace[i], hash, ops[i].key)
  }

  ghost predicate GuardedStep<K(!new), V(!new)>(tv: seq<seq<View<K, V>>>, hash: K -> u64, key: K) {
    |tv| > 0 && var sv := tv[SegId(hash(key), |tv|)]; Shape(sv) && KeyGuard(sv, hash(key), key)
  }

  /** What every step does to the stored entries, guarded or not. */
  ghost predicate StepEffect<K(!new), V(!new)>(tv: seq<seq<View<K, V>>>, op: Op<K, V>, reply: Option<V>,
                               tv': seq<seq<View<K, V>>>,
                                               hash: K -> u64) {
    match op
    case Find(k) => tv' == tv && (reply.Some? <==> FindsIn(tv, hash, k)) && (reply.Some? ==> (k, reply.value) in Contents(tv))
    case Insert(k, v) => (reply.Some? <==> FindsIn(tv, hash, k)) && Inserted(Contents(tv), k, v, reply, Contents(tv'))
    case Remove(k) => Removed(Contents(tv), k, reply, Contents(tv'))
  }

  /** A key that is stored but that a lookup misses. */
  ghost predicate Lost<K(!new), V(!new)>(tv: seq<seq<View<K, V>>>, hash: K -> u64, k: K) {
    !FindsIn(tv, hash, k) && exists v :: (k, v) in Contents(tv)
  }

  /** From a state with every key stored once, a step stores one twice exactly if it inserts a lost key. */
  lemma TwiceIffLost<K(!new), V(!new)>(tv: seq<seq<View<K, V>>>, op: Op<K, V>, reply: Option<V>, tv': seq<seq<View<K, V>>>,
                                       hash: K -> u64)
    requires StepEffect(tv, op, reply, tv', hash) && KeysOnce(Contents(tv))
    ensures KeysOnce(Contents(tv')) <==> !(op.Insert? && Lost(tv, hash, op.key))
  {
    hide Contents, FindsIn;
    var e, e', k := Contents(tv), Contents(tv'), op.key;
    match op
    case Find(_) =>
    case Remove(_) =>
      assert forall x :: e'[x] <= e[x];
    case Insert(_, v) =>
      if reply.Some? {
        ExchangeOnce(e, e', k, reply.value, v);
      } else {
        AddOnce(e, k, v);
      }
  }

  lemma ExchangeOnce<K(!new), V(!new)>(e: multiset<(K, V)>, e': multiset<(K, V)>, k: K, v: V, w: V)
    requires KeysOnce(e) && (k, v) in e && e' + multiset{(k, v)} == e + multiset{(k, w)}
    ensures KeysOnce(e')
  {
    forall l, u
      ensures e'[(l, u)] == e[(l, u)] + (if (l, u) == (k, w) then 1 else 0) - (if (l, u) == (k, v) then 1 else 0)
    {
      assert (e' + multiset{(k, v)})[(l, u)] == (e + multiset{(k, w)})[(l, u)];
    }
    assert forall u :: (k, u) in e ==> u == v && e[(k, u)] == 1;
  }

  lemma AddOnce<K(!new), V(!new)>(e: multiset<(K, V)>, k: K, v: V)
    requires KeysOnce(e)
    ensures KeysOnce(e + multiset{(k, v)}) <==> forall u :: (k, u) !in e
  {
    var e' := e + multiset{(k, v)};
    if u :| (k, u) in e {
      assert (k, u) in e' && (k, v) in e';
    }
  }

  lemma GuardedMore<K(!new), V(!new)>(ops: seq<Op<K, V>>, i: nat, trace: seq<seq<seq<View<K, V>>>>, tv': seq<seq<View<K, V>>>,
                                      hash: K -> u64)
    requires i < |ops| && |trace| == i + 1
    ensures Guarded(ops[..i + 1], trace + [tv'], hash) <==>
            Guarded(ops[..i], trace, hash) && (ops[i].Remove? ==> GuardedStep(trace[i], hash, ops[i].key))
  {
    hide GuardedStep;
    var more, ts := ops[..i + 1], trace + [tv'];
    assert forall j :: 0 <= j <= i ==> more[j] == ops[j] && ts[j] == trace[j];
    assert forall j :: 0 <= j < i ==> ops[..i][j] == ops[j];
    if Guarded(more, ts, hash) {
      forall j | 0 <= j < i && ops[..i][j].Remove? ensures GuardedStep(trace[j], hash, ops[..i][j].key) {
        assert GuardedStep(ts[j], hash, more[j].key);
      }
    }
    if Guarded(ops[..i], trace, hash) && (ops[i].Remove? ==> GuardedStep(trace[i], hash, ops[i].key)) {
      forall j | 0 <= j <= i && more[j].Remove? ensures GuardedStep(ts[j], hash, more[j].key) {
        if j < i {
          assert GuardedStep(trace[j], hash, ops[..i][j].key);
        }
      }
    }
  }

  lemma AnswersMore<K(!new), V(!new)>(ops: seq<Op<K, V>>, i: nat, replies: seq<Option<V>>, reply: Option<V>)
    requires i < |ops| && |replies| == i
    ensures AnswersLikeMap(ops[..i + 1], replies + [reply]) <==>
            AnswersLikeMap(ops[..i], replies) && reply == Lookup(MapAfterAll(ops[..i]), ops[i].key)
  {
    hide MapAfterAll, Lookup;
    var more, rs := ops[..i + 1], replies + [reply];
    forall j | 0 <= j <= i ensures more[..j] == ops[..j] && more[j] == ops[j] {}
    forall j | 0 <= j < i ensures ops[..i][..j] == ops[..j] && ops[..i][j] == ops[j] && rs[j] == replies[j] {}
    assert rs[i] == reply;
    if AnswersLikeMap(more, rs) {
      forall j | 0 <= j < i ensures replies[j] == Lookup(MapAfterAll(ops[..i][..j]), ops[..i][j].key) {
        assert rs[j] == Lookup(MapAfterAll(more[..j]), more[j].key);
      }
    }
    if AnswersLikeMap(ops[..i], replies) && reply == Lookup(MapAfterAll(ops[..i]), ops[i].key) {
      forall j | 0 <= j <= i ensures rs[j] == Lookup(MapAfterAll(more[..j]), more[j].key) {
        if j < i {
          assert replies[j] == Lookup(MapAfterAll(ops[..i][..j]), ops[..i][j].key);
        }
      }
    }
  }

  lemma RunStep<K(!new), V(!new)>(ops: seq<Op<K, V>>, i: nat, replies: seq<Option<V>>, reply: Option<V>,
                                  trace: seq<seq<seq<View<K, V>>>>, tv': seq<seq<View<K, V>>>, hash: K -> u64)
    requires i < |ops| && |replies| == i && |trace| == i + 1
    ensures MapAfterAll(ops[..i + 1]) == MapAfter(MapAfterAll(ops[..i]), ops[i])
    ensures Guarded(ops[..i + 1], trace + [tv'], hash) <==>
            Guarded(ops[..i], trace, hash) && (ops[i].Remove? ==> GuardedStep(trace[i], hash, ops[i].key))
    ensures AnswersLikeMap(ops[..i + 1], replies + [reply]) <==>
            AnswersLikeMap(ops[..i], replies) && reply == Lookup(MapAfterAll(ops[..i]), ops[i].key)
  {
    hide GuardedStep, MapAfter, Lookup, Guarded, AnswersLikeMap;
    assert ops[..i + 1][..i] == ops[..i];
    GuardedMore(ops, i, trace, tv', hash);
    AnswersMore(ops, i, replies, reply);
  }

  /** One operation on a table, against one step of the map. */
  method Step<K(==, !new), V(!new)>(t: DashTable<K, V>, op: Op<K, V>, ghost m: map<K, V>)
    returns (reply: Option<V>, panicked: bool)
    requires t.Valid()
    modifies t, t.segments
    ensures t.segments == old(t.segments) || fresh(t.segments)
    ensures !panicked ==> t.Valid() && StepEffect(old(AllViews(t.segments)), op, reply, AllViews(t.segments), t.hash)
    ensures !panicked && old(t.Agrees(m)) && (op.Remove? ==> GuardedStep(old(AllViews(t.segments)), t.hash, op.key)) ==>
              t.Agrees(MapAfter(m, op)) && reply == Lookup(m, op.key)
  {
    hide Items, Contents, SegId, AllComplete, AllReady, Routed, AllValid, AllViews, Holds, KeyGuard, Inserted, Removed, FindsIn;
    panicked := false;
    match op {
      case Find(k) =>
        reply := t.Find(k, m);
      case Insert(k, v) =>
        var r := t.Insert(k, v, m);
        if r.Err? { return None, true; }
        reply := r.value;
      case Remove(k) =>
        reply := t.Remove(k, m);
    }
  }

  /** The states of a run: it starts empty and every step has its effect. */
  ghost predicate Traced<K(!new), V(!new)>(ops: seq<Op<K, V>>, replies: seq<Option<V>>, trace: seq<seq<seq<View<K, V>>>>,
                                           hash: K -> u64) {
    && |replies| == |ops| && |trace| == |ops| + 1 && trace[0] == seq(4, i => EmptySegment<K, V>())
    && forall i :: 0 <= i < |ops| ==> StepEffect(trace[i], ops[i], replies[i], trace[i + 1], hash)
  }

  ghost predicate AllOnce<K(!new), V(!new)>(trace: seq<seq<seq<View<K, V>>>>) {
    forall i :: 0 <= i < |trace| ==> KeysOnce(Contents(trace[i]))
  }

  lemma TracedMore<K(!new), V(!new)>(ops: seq<Op<K, V>>, i: nat, replies: seq<Option<V>>, reply: Option<V>,
                                     trace: seq<seq<seq<View<K, V>>>>, tv': seq<seq<View<K, V>>>, hash: K -> u64)
    requires i < |ops| && Traced(ops[..i], replies, trace, hash) && StepEffect(trace[i], ops[i], reply, tv', hash)
    ensures Traced(ops[..i + 1], replies + [reply], trace + [tv'], hash)
  {
    hide StepEffect, EmptySegment;
    var more, rs, ts := ops[..i + 1], replies + [reply], trace + [tv'];
    forall j | 0 <= j <= i
      ensures StepEffect(ts[j], more[j], rs[j], ts[j + 1], hash)
    {
      if j < i {
        assert StepEffect(trace[j], ops[..i][j], replies[j], trace[j + 1], hash);
      }
    }
  }

  /**
   Run any sequence of operations on a new table. Unless it panics, each step changes the stored
   entries by exactly that operation and the size counts them; and a run whose removals are all
   guarded answers every operation as a plain map does, never stores a key twice, and ends up holding
   exactly that map.
   */
  method Run<K(==, !new), V(!new)>(ops: seq<Op<K, V>>, hash: K -> u64)
    returns (t: DashTable<K, V>, replies: seq<Option<V>>, panicked: bool, ghost trace: seq<seq<seq<View<K, V>>>>)
    ensures !panicked ==> t.Valid() && |replies| == |ops|
    ensures !panicked ==>
              Traced(ops, replies, trace, hash) && trace[|ops|] == AllViews(t.segments) && t.size == |Contents(trace[|ops|])|
    ensures !panicked && Guarded(ops, trace, hash) ==>
              && AnswersLikeMap(ops, replies)
              && t.Agrees(MapAfterAll(ops)) && t.size == |MapAfterAll(ops)|
              && AllOnce(trace)
  {
    hide Contents, AllReady, Routed, AllViews, AllComplete, Holds, StepEffect, GuardedStep;
    hide Guarded, AnswersLikeMap, MapAfter, MapAfterAll, Lookup, KeysOnce, Traced, AllOnce;
    t := new DashTable<K, V>(hash);
    replies := [];
    trace := [AllViews(t.segments)];
    NoSteps(ops, trace, hash);
    ghost var m: map<K, V> := map[];
    HoldsOnce(Contents(trace[0]), m);
    OnceFirst(trace);
    for i := 0 to |ops|
      invariant t.Valid() && t.hash == hash && fresh(t) && fresh(t.segments)
      invariant |replies| == i && |trace| == i + 1 && trace[i] == AllViews(t.segments)
      invariant Traced(ops[..i], replies, trace, hash)
      invariant m == MapAfterAll(ops[..i])
      invariant Guarded(ops[..i], trace, hash) ==> t.Agrees(m) && AnswersLikeMap(ops[..i], replies) && AllOnce(trace)
    {
      var reply, failed := Step(t, ops[i], m);
      if failed { return t, replies, true, trace; }
      RunStep(ops, i, replies, reply, trace, AllViews(t.segments), hash);
      TracedMore(ops, i, replies, reply, trace, AllViews(t.segments), hash);
      m := MapAfter(m, ops[i]);
      if t.Agrees(m) {
        HoldsOnce(Contents(AllViews(t.segments)), m);
        OnceMore(trace, AllViews(t.segments));
      }
      replies := replies + [reply];
      trace := trace + [AllViews(t.segments)];
    }
    assert ops[..|ops|] == ops;
    if Guarded(ops, trace, hash) {
      HoldsSize(Contents(AllViews(t.segments)), m);
    }
    panicked := false;
  }

  lemma OnceFirst<K(!new), V(!new)>(trace: seq<seq<seq<View<K, V>>>>)
    requires |trace| == 1 && KeysOnce(Contents(trace[0]))
    ensures AllOnce(trace)
  {}

  lemma OnceMore<K(!new), V(!new)>(trace: seq<seq<seq<View<K, V>>>>, tv: seq<seq<View<K, V>>>)
    requires KeysOnce(Contents(tv))
    ensures AllOnce(trace) ==> AllOnce(trace + [tv])
  {
    hide KeysOnce, Contents;
  }

  lemma NoSteps<K(!new), V(!new)>(ops: seq<Op<K, V>>, trace: seq<seq<seq<View<K, V>>>>, hash: K -> u64)
    requires |trace| == 1
    ensures MapAfterAll(ops[..0]) == map[] && Guarded(ops[..0], trace, hash) && AnswersLikeMap(ops[..0], [])
    ensures trace[0] == seq(4, i => EmptySegment<K, V>()) ==> Traced(ops[..0], [], trace, hash)
  {}
}
