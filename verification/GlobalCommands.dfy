/** Commands that ask every shard: DBSIZE and KEYS. */
module GlobalCommands {
  import opened Common
  import opened Databases
  import opened DbSlices
  import opened Gather
  import opened KeyOps
  import opened Replies
  import opened Scatter
  import opened ShardRuns

  // ---- DBSIZE ----

  /** The stored keys that belong to the shards before `m`. */
  ghost function KeysBelow(whole: Db, route: bytes -> nat, m: nat): set<bytes> { set k | k in whole.prime && route(k) < m }

  ghost function KeysAt(whole: Db, route: bytes -> nat, s: nat): set<bytes> { set k | k in whole.prime && route(k) == s }

  ghost function Below(whole: Db, route: bytes -> nat, m: nat): nat { |KeysBelow(whole, route, m)| }

  ghost function Size(whole: Db, route: bytes -> nat, s: nat): nat { |KeysAt(whole, route, s)| }

  lemma SmallerSet(a: set<bytes>, b: set<bytes>)
    requires a <= b
    ensures |a| <= |b|
  {
    assert b == a + (b - a);
  }

  lemma OneMoreShard(whole: Db, route: bytes -> nat, m: nat)
    ensures Below(whole, route, m + 1) == Below(whole, route, m) + Size(whole, route, m)
  {
    assert KeysBelow(whole, route, m + 1) == KeysBelow(whole, route, m) + KeysAt(whole, route, m);
  }

  lemma ShardKeys(whole: Db, rows: seq<seq<Db>>, i: nat, route: bytes -> nat, s: nat)
    requires Wide(rows) && i < 16 && s < |rows| && Spread(whole, Column(rows, i), route)
    ensures |rows[s][i].prime| == Size(whole, route, s) <= |whole.prime|
  {
    ColumnAt(rows, i, s);
    assert Agree(whole, rows[s][i], route, s) && Own(rows[s][i], route, s);
    hide Spread, Agree, Own;
    forall k
      ensures k in rows[s][i].prime <==> k in whole.prime && route(k) == s
    {
      CellsAt(whole, rows[s][i], route, s, k);
    }
    assert rows[s][i].prime.Keys == KeysAt(whole, route, s) <= whole.prime.Keys;
    SmallerSet(KeysAt(whole, route, s), whole.prime.Keys);
  }

  lemma CellsAt(whole: Db, db: Db, route: bytes -> nat, s: nat, k: bytes)
    requires Agree(whole, db, route, s) && Own(db, route, s)
    ensures k in db.prime <==> k in whole.prime && route(k) == s
    ensures route(k) == s ==> CellOf(db, k) == CellOf(whole, k)
  {
    assert k in db.prime <==> CellOf(db, k).value.Some?;
    assert k in whole.prime <==> CellOf(whole, k).value.Some?;
  }

  lemma AllShards(whole: Db, route: bytes -> nat, n: nat)
    requires Total(route, n)
    ensures Below(whole, route, n) == |whole.prime|
  {
    assert KeysBelow(whole, route, n) == whole.prime.Keys;
  }

  lemma BelowNone(whole: Db, route: bytes -> nat)
    ensures Below(whole, route, 0) == 0
  {
    assert KeysBelow(whole, route, 0) == {};
  }

  method CmdDbSize(s: DbSlice, i: nat) returns (buf: bytes)
    requires s.Valid() && i < 16
    ensures buf == IntegerReply(|s.dbs[i].prime|)
  {
    var reply := new ReplyBuilder([]);
    reply.SendInteger(|s.dbs[i].prime|);
    return reply.buf;
  }

  /** The sizes of all shards add up to the size of the unsharded store. */
  method DispatchDbSize(shards: seq<DbSlice>, local: nat, i: nat, route: bytes -> nat, ghost rows: seq<seq<Db>>, ghost whole: Db)
    returns (reply: bytes)
    requires Cluster(shards, rows) && Wide(rows) && local < |shards| == |rows| && i < 16 && Total(route, |shards|)
    requires Spread(whole, Column(rows, i), route) && InI64(|whole.prime|)
    ensures reply == IntegerReply(|whole.prime|)
  {
    hide Spread, IntegerReply, IntegerOr0, Column, Below, Size, Total, Cluster;
    AllShards(whole, route, |shards|);
    BelowNone(whole, route);
    var localBuf := AskSize(shards, local, i, route, rows, whole);
    if |shards| == 1 {
      OneMoreShard(whole, route, 0);
      return localBuf;
    }
    var total := IntegerOr0(localBuf);
    for sid := 0 to |shards|
      invariant total == Below(whole, route, sid) + if sid <= local then Size(whole, route, local) else 0
    {
      OneMoreShard(whole, route, sid);
      if sid == local {
        continue;
      }
      var buf := AskSize(shards, sid, i, route, rows, whole);
      total := total + IntegerOr0(buf);
    }
    var rb := new ReplyBuilder([]);
    rb.SendInteger(total);
    return rb.buf;
  }

  /** One shard counts its own keys of the whole store. */
  method AskSize(shards: seq<DbSlice>, sid: nat, i: nat, route: bytes -> nat, ghost rows: seq<seq<Db>>, ghost whole: Db)
    returns (buf: bytes)
    requires Cluster(shards, rows) && Wide(rows) && sid < |shards| == |rows| && i < 16
    requires Spread(whole, Column(rows, i), route) && InI64(|whole.prime|)
    ensures buf == IntegerReply(Size(whole, route, sid)) && IntegerOr0(buf) == Size(whole, route, sid)
  {
    hide IntegerReply, IntegerOr0, Size, Spread, Column;
    ShardKeys(whole, rows, i, route, sid);
    ShardSize(|rows[sid][i].prime|);
    buf := CmdDbSize(shards[sid], i);
  }

  lemma ShardSize(n: nat)
    requires InI64(n)
    ensures IntegerOr0(IntegerReply(n)) == n
  {
    hide ParseInteger, IntegerReply;
    Gather.IntegerRoundTrip(n);
  }

  // ---- KEYS ----

  function Somes(keys: seq<bytes>): (r: seq<Option<bytes>>)
    ensures |r| == |keys|
  {
    seq(|keys|, j requires 0 <= j < |keys| => Some(keys[j]))
  }

  /** `flatten`: the values that are there, in order. */
  function Flat(vs: seq<Option<bytes>>): seq<bytes> {
    if vs == [] then [] else (if vs[0].Some? then [vs[0].value] else []) + Flat(vs[1..])
  }

  lemma {:induction false} FlatSomes(keys: seq<bytes>)
    ensures Flat(Somes(keys)) == keys
  {
    if keys != [] {
      assert Somes(keys)[1..] == Somes(keys[1..]);
      FlatSomes(keys[1..]);
    }
  }

  ghost function Wanted(db: Db, matches: bytes -> bool, now: Time): set<bytes> { set k | k in View(db, now) && matches(k) }

  /** The wanted keys of the shards in `done`. */
  ghost function WantedIn(whole: Db, matches: bytes -> bool, route: bytes -> nat, done: set<nat>, now: Time): set<bytes> {
    set k | k in View(whole, now) && matches(k) && route(k) in done
  }

  lemma ShardWanted(whole: Db, rows: seq<seq<Db>>, i: nat, route: bytes -> nat, s: nat, matches: bytes -> bool, now: Time)
    requires Wide(rows) && i < 16 && s < |rows| && Spread(whole, Column(rows, i), route)
    ensures Wanted(rows[s][i], matches, now) == WantedIn(whole, matches, route, {s}, now)
  {
    ColumnAt(rows, i, s);
    var db := rows[s][i];
    assert Agree(whole, db, route, s) && Own(db, route, s);
    hide Agree, Own, Spread;
    forall k
      ensures k in View(db, now) <==> k in View(whole, now) && route(k) == s
    {
      CellsAt(whole, db, route, s, k);
      if route(k) == s {
        ViewCell(db, whole, k, now);
      }
    }
  }

  lemma ViewCell(a: Db, b: Db, k: bytes, now: Time)
    requires CellOf(a, k) == CellOf(b, k)
    ensures k in View(a, now) <==> k in View(b, now)
  {
    assert k in a.prime <==> CellOf(a, k).value.Some?;
    assert k in b.prime <==> CellOf(b, k).value.Some?;
  }

  lemma EnumeratesMore(a: seq<bytes>, b: seq<bytes>, whole: Db, matches: bytes -> bool, route: bytes -> nat,
                       done: set<nat>, s: nat, now: Time)
    requires s !in done
    requires Enumerates(a, WantedIn(whole, matches, route, done, now))
    requires Enumerates(b, WantedIn(whole, matches, route, {s}, now))
    ensures Enumerates(a + b, WantedIn(whole, matches, route, done + {s}, now))
  {
    hide View;
    var ab := a + b;
    forall x, y | 0 <= x < y < |ab|
      ensures ab[x] != ab[y]
    {
      if x < |a| <= y {
        assert ab[x] in a && ab[y] in b;
      }
    }
  }

  /** KEYS on one shard, printed. */
  method CmdKeys(s: DbSlice, i: nat, matches: bytes -> bool, order: seq<bytes>, now: Time)
    returns (buf: bytes, ghost keys: seq<bytes>)
    requires s.Valid() && i < 16 && Enumerates(order, s.dbs[i].prime.Keys)
    modifies s
    ensures s.Valid() && s.dbs == old(s.dbs)[i := s.dbs[i]] && View(s.dbs[i], now) == View(old(s.dbs[i]), now)
    ensures Enumerates(keys, Wanted(old(s.dbs[i]), matches, now)) && buf == ArrayReply(Somes(keys))
  {
    hide Enumerates, ArrayReply, Somes;
    s.UpdateTime(now);
    var found := s.Keys(i, matches, order);
    keys := found;
    var reply := new ReplyBuilder([]);
    reply.SendOptions(Somes(found));
    return reply.buf, keys;
  }

  /** Every key can be printed and counted. */
  ghost predicate NamesFit(whole: Db) { InI64(|whole.prime|) && forall k :: k in whole.prime ==> InI64(|k|) }

  /** What one shard prints is read back as the keys it listed. */
  lemma KeysRead(keys: seq<bytes>, whole: Db, matches: bytes -> bool, route: bytes -> nat, s: nat, now: Time)
    requires NamesFit(whole) && Enumerates(keys, WantedIn(whole, matches, route, {s}, now))
    ensures Flat(ArrayValues(ArrayReply(Somes(keys)))) == keys
  {
    hide ArrayReply, ArrayValues, Flat, Enumerates;
    var wanted := WantedIn(whole, matches, route, {s}, now);
    DistinctSize(keys, wanted);
    assert wanted <= whole.prime.Keys;
    SmallerSet(wanted, whole.prime.Keys);
    forall j | 0 <= j < |keys|
      ensures keys[j] in whole.prime
    {
      Listed(keys, wanted, j);
    }
    ArrayRoundTrip(Somes(keys));
    FlatSomes(keys);
  }

  lemma Listed(keys: seq<bytes>, wanted: set<bytes>, j: nat)
    requires Enumerates(keys, wanted) && j < |keys|
    ensures keys[j] in wanted
  {
    assert keys[j] in keys;
  }

  /** Shards in `done` look the same to clients as before; the others have not been touched. */
  ghost predicate Asked(shards: seq<DbSlice>, rows: seq<seq<Db>>, i: nat, done: set<nat>, now: Time)
    requires i < 16 && Wide(rows)
    reads shards
  {
    && |rows| == |shards|
    && (forall a, b :: 0 <= a < b < |shards| ==> shards[a] != shards[b])
    && (forall s :: 0 <= s < |shards| ==> shards[s].Valid())
    && (forall s :: 0 <= s < |shards| ==>
          if s in done then shards[s].dbs == rows[s][i := shards[s].dbs[i]] && View(shards[s].dbs[i], now) == View(rows[s][i], now)
          else shards[s].dbs == rows[s])
  }

  /** Ask one shard and append what it lists. */
  method AskKeys(shards: seq<DbSlice>, sid: nat, i: nat, matches: bytes -> bool, order: seq<bytes>, now: Time,
                 route: bytes -> nat,
                 names: seq<bytes>, ghost rows: seq<seq<Db>>, ghost whole: Db, ghost done: set<nat>)
    returns (all: seq<bytes>, buf: bytes, ghost keys: seq<bytes>)
    requires i < 16 && Wide(rows) && sid < |shards| && sid !in done && Asked(shards, rows, i, done, now)
    requires Spread(whole, Column(rows, i), route) && NamesFit(whole)
    requires Enumerates(order, rows[sid][i].prime.Keys)
    requires Enumerates(names, WantedIn(whole, matches, route, done, now))
    modifies shards
    ensures Asked(shards, rows, i, done + {sid}, now)
    ensures Enumerates(all, WantedIn(whole, matches, route, done + {sid}, now))
    ensures buf == ArrayReply(Somes(keys)) && all == names + keys
  {
    hide Enumerates, View, Spread, Column, ArrayReply, Somes, Flat, NamesFit, Wanted, WantedIn, ArrayValues;
    buf, keys := CmdKeys(shards[sid], i, matches, order, now);
    assert forall s :: 0 <= s < |shards| && s != sid ==> shards[s] != shards[sid];
    ShardWanted(whole, rows, i, route, sid, matches, now);
    EnumeratesMore(names, keys, whole, matches, route, done, sid, now);
    KeysRead(keys, whole, matches, route, sid, now);
    var values := ParseArray(buf);
    all := names + Flat(values);
  }

  ghost function Everyone(n: nat): (r: set<nat>)
    ensures forall s: nat :: s in r <==> s < n
  {
    if n == 0 then {} else Everyone(n - 1) + {n - 1}
  }

  /** The live keys of the unsharded store that match, each listed once. */
  method DispatchKeys(shards: seq<DbSlice>, local: nat, i: nat, matches: bytes -> bool, orders: seq<seq<bytes>>, now: Time,
                      route: bytes -> nat, ghost rows: seq<seq<Db>>, ghost whole: Db)
    returns (reply: bytes, ghost names: seq<bytes>)
    requires i < 16 && Wide(rows) && local < |shards| && Total(route, |shards|) && Asked(shards, rows, i, {}, now)
    requires Spread(whole, Column(rows, i), route) && NamesFit(whole)
    requires |orders| == |shards| && forall s :: 0 <= s < |shards| ==> Enumerates(orders[s], rows[s][i].prime.Keys)
    modifies shards
    ensures Asked(shards, rows, i, Everyone(|shards|), now)
    ensures reply == ArrayReply(Somes(names)) && Enumerates(names, Wanted(whole, matches, now))
  {
    hide Enumerates, Spread, Column, ArrayReply, Somes, NamesFit, Wanted, WantedIn, Asked, Total;
    NoneWanted(whole, matches, route, now);
    var all, buf, keys := AskKeys(shards, local, i, matches, orders[local], now, route, [], rows, whole, {});
    ghost var done: set<nat> := {} + {local};
    if |shards| == 1 {
      AllWanted(whole, matches, route, done, |shards|, now);
      assert [] + keys == keys;
      assert done == Everyone(1);
      return buf, keys;
    }
    for sid := 0 to |shards|
      invariant Asked(shards, rows, i, done, now) && Enumerates(all, WantedIn(whole, matches, route, done, now))
      invariant forall s: nat :: s in done <==> s == local || s < sid
    {
      if sid == local {
        continue;
      }
      ghost var more;
      all, buf, more := AskKeys(shards, sid, i, matches, orders[sid], now, route, all, rows, whole, done);
      done := done + {sid};
    }
    assert done == Everyone(|shards|);
    AllWanted(whole, matches, route, done, |shards|, now);
    names := all;
    var rb := new ReplyBuilder([]);
    rb.SendOptions(Somes(all));
    reply := rb.buf;
  }

  lemma NoneWanted(whole: Db, matches: bytes -> bool, route: bytes -> nat, now: Time)
    ensures Enumerates([], WantedIn(whole, matches, route, {}, now))
  {}

  lemma AllWanted(whole: Db, matches: bytes -> bool, route: bytes -> nat, done: set<nat>, n: nat, now: Time)
    requires Total(route, n) && forall s: nat :: s < n ==> s in done
    ensures WantedIn(whole, matches, route, done, now) == Wanted(whole, matches, now)
  {
    hide View;
  }
}
