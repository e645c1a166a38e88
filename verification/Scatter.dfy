/** Splitting a command over the shards and putting the replies together again. */
module Scatter {
  import opened Common
  import opened Collect
  import opened Databases
  import opened DbSlices
  import opened Gather
  import opened KeyCommands
  import opened KeyOps
  import opened Replies

  // ---- The shards as objects and as values ----

  /** Different store objects, each well formed, whose databases are `rows`. */
  ghost predicate Cluster(shards: seq<DbSlice>, rows: seq<seq<Db>>)
    reads shards
  {
    && |rows| == |shards|
    && (forall a, b :: 0 <= a < b < |shards| ==> shards[a] != shards[b])
    && (forall s :: 0 <= s < |shards| ==> shards[s].Valid() && shards[s].dbs == rows[s])
  }

  ghost predicate Wide(rows: seq<seq<Db>>) { forall s :: 0 <= s < |rows| ==> |rows[s]| == 16 }

  /** Database `i` of every shard. */
  function Column(rows: seq<seq<Db>>, i: nat): (r: seq<Db>)
    requires Wide(rows) && i < 16
    ensures |r| == |rows|
  {
    seq(|rows|, s requires 0 <= s < |rows| => rows[s][i])
  }

  lemma ClusterWide(shards: seq<DbSlice>, rows: seq<seq<Db>>)
    requires Cluster(shards, rows)
    ensures Wide(rows) && |rows| == |shards|
  {}

  /** A shard after its part of the command. */
  function Updated(row: seq<Db>, i: nat, part: seq<Item>, now: Time): (r: seq<Db>)
    requires |row| == 16 && i < 16
    ensures |r| == 16
  {
    row[i := Run(row[i], part, now)]
  }

  /** All shards, after those in `done` have run their parts. */
  function Visited(rows: seq<seq<Db>>, i: nat, items: seq<Item>, route: bytes -> nat, done: set<nat>,
                   now: Time): (r: seq<seq<Db>>)
    requires Wide(rows) && i < 16
    ensures |r| == |rows| && Wide(r)
  {
    seq(|rows|, s requires 0 <= s < |rows| => if s in done then Updated(rows[s], i, Sub(items, route, s), now) else rows[s])
  }

  function AllRun(rows: seq<seq<Db>>, i: nat, items: seq<Item>, route: bytes -> nat, now: Time): (r: seq<seq<Db>>)
    requires Wide(rows) && i < 16
    ensures |r| == |rows| && Wide(r)
  {
    seq(|rows|, s requires 0 <= s < |rows| => Updated(rows[s], i, Sub(items, route, s), now))
  }

  lemma VisitedMore(rows: seq<seq<Db>>, i: nat, items: seq<Item>, route: bytes -> nat, done: set<nat>, s: nat, now: Time)
    requires Wide(rows) && i < 16 && s < |rows| && s !in done
    ensures Visited(rows, i, items, route, done, now)[s] == rows[s]
    ensures Visited(rows, i, items, route, done + {s}, now)
         == Visited(rows, i, items, route, done, now)[s := Updated(rows[s], i, Sub(items, route, s), now)]
  {
    hide Updated, Sub;
  }

  lemma VisitedAll(rows: seq<seq<Db>>, i: nat, items: seq<Item>, route: bytes -> nat, done: set<nat>, now: Time)
    requires Wide(rows) && i < 16
    requires forall s :: s !in done ==> Sub(items, route, s) == []
    ensures Visited(rows, i, items, route, done, now) == AllRun(rows, i, items, route, now)
  {
    hide Sub;
    forall s | 0 <= s < |rows| && s !in done
      ensures Updated(rows[s], i, Sub(items, route, s), now) == rows[s]
    {
      assert rows[s][i := rows[s][i]] == rows[s];
    }
  }

  lemma VisitedNone(rows: seq<seq<Db>>, i: nat, items: seq<Item>, route: bytes -> nat, now: Time)
    requires Wide(rows) && i < 16
    ensures Visited(rows, i, items, route, {}, now) == rows
  {
    hide Updated, Sub;
  }

  /** The union of the shards runs the whole command when every shard has run its part. */
  lemma SpreadRun(whole: Db, rows: seq<seq<Db>>, i: nat, items: seq<Item>, route: bytes -> nat, now: Time)
    requires Wide(rows) && i < 16 && Spread(whole, Column(rows, i), route)
    ensures Spread(Run(whole, items, now), Column(AllRun(rows, i, items, route, now), i), route)
  {
    hide Agree, Own, Run, Sub;
    var after := Column(AllRun(rows, i, items, route, now), i);
    forall s | 0 <= s < |after|
      ensures Agree(Run(whole, items, now), after[s], route, s) && Own(after[s], route, s)
    {
      assert Column(rows, i)[s] == rows[s][i];
      SubSimulates(whole, rows[s][i], items, route, s, now);
    }
  }

  // ---- Grouping ----

  lemma {:induction false} SubMore(items: seq<Item>, i: Item, route: bytes -> nat, s: nat)
    ensures Sub(items + [i], route, s) == Sub(items, route, s) + if route(i.key) == s then [i] else []
  {
    if items == [] {
      assert items + [i] == [i] && [i][1..] == [];
    } else {
      var head: seq<Item> := if route(items[0].key) == s then [items[0]] else [];
      var last: seq<Item> := if route(i.key) == s then [i] else [];
      assert (items + [i])[1..] == items[1..] + [i];
      SubMore(items[1..], i, route, s);
      Joined(head, Sub(items[1..], route, s), last);
    }
  }

  /** The groups are the parts of the shards that have any. */
  ghost predicate Grouped(groups: map<nat, seq<Item>>, items: seq<Item>, route: bytes -> nat) {
    && (forall s :: s in groups ==> groups[s] == Sub(items, route, s))
    && (forall s: nat :: s in groups <==> Sub(items, route, s) != [])
  }

  /** The first loop of DEL, EXISTS and MSET: arguments pushed to the group of their shard. */
  method Split(items: seq<Item>, route: bytes -> nat) returns (groups: map<nat, seq<Item>>)
    ensures Grouped(groups, items, route)
  {
    groups := map[];
    for j := 0 to |items|
      invariant Grouped(groups, items[..j], route)
    {
      var item := items[j];
      var sid := route(item.key);
      ghost var was := groups;
      groups := groups[sid := (if sid in groups then groups[sid] else []) + [item]];
      assert items[..j + 1] == items[..j] + [item];
      GroupedMore(was, groups, items[..j], item, route);
    }
    assert items[..|items|] == items;
  }

  lemma GroupedMore(groups: map<nat, seq<Item>>, more: map<nat, seq<Item>>, items: seq<Item>, i: Item, route: bytes -> nat)
    requires Grouped(groups, items, route)
    requires var s := route(i.key); more == groups[s := (if s in groups then groups[s] else []) + [i]]
    ensures Grouped(more, items + [i], route)
  {
    hide Sub;
    forall s: nat
      ensures s in more ==> more[s] == Sub(items + [i], route, s)
      ensures s in more <==> Sub(items + [i], route, s) != []
    {
      SubMore(items, i, route, s);
    }
  }

  /** Parts only go to shards that exist. */
  lemma {:induction false} SubRouted(items: seq<Item>, route: bytes -> nat, s: nat, n: nat)
    requires Total(route, n) && Sub(items, route, s) != []
    ensures s < n
  {
    if items != [] && route(items[0].key) != s {
      SubRouted(items[1..], route, s, n);
    }
  }

  lemma {:induction false} SubUniform(kind: Kind, items: seq<Item>, route: bytes -> nat, s: nat)
    requires Uniform(kind, items)
    ensures Uniform(kind, Sub(items, route, s)) && |Sub(items, route, s)| <= |items|
  {
    if items != [] {
      assert forall j :: 0 <= j < |items[1..]| ==> items[1..][j] == items[j + 1];
      SubUniform(kind, items[1..], route, s);
    }
  }

  /** One shard runs one task, atomically; the others are not touched. */
  method RunOn(shards: seq<DbSlice>, sid: nat, i: nat, kind: Kind, part: seq<Item>, now: Time, ghost rows: seq<seq<Db>>)
    returns (buf: bytes)
    requires Cluster(shards, rows) && sid < |shards| && i < 16 && Uniform(kind, part) && |rows[sid]| == 16
    modifies shards[sid]
    ensures Cluster(shards, rows[sid := Updated(rows[sid], i, part, now)])
    ensures buf == ReplyTo(kind, rows[sid][i], part, now)
  {
    hide Run, ReplyTo, Uniform;
    buf := Dispatch(shards[sid], i, kind, part, now);
    assert forall s :: 0 <= s < |shards| && s != sid ==> shards[s] != shards[sid];
  }

  // ---- What is still to be sent ----

  ghost predicate Pending(groups: map<nat, seq<Item>>, items: seq<Item>, route: bytes -> nat, done: set<nat>, n: nat) {
    && (forall s :: s in groups ==> s < n && s !in done && groups[s] == Sub(items, route, s))
    && (forall s: nat :: Sub(items, route, s) != [] ==> s in groups || s in done)
  }

  lemma AllPending(groups: map<nat, seq<Item>>, items: seq<Item>, route: bytes -> nat, n: nat)
    requires Grouped(groups, items, route) && Total(route, n)
    ensures Pending(groups, items, route, {}, n)
  {
    hide Sub;
    forall s | s in groups
      ensures s < n
    {
      SubRouted(items, route, s, n);
    }
  }

  lemma OneSent(groups: map<nat, seq<Item>>, items: seq<Item>, route: bytes -> nat, done: set<nat>, n: nat, s: nat)
    requires Pending(groups, items, route, done, n) && s in groups
    ensures Pending(groups - {s}, items, route, done + {s}, n)
  {
    hide Sub;
  }

  // ---- Sums ----

  /** The counts of the items whose shards have answered. */
  function Tally(answers: seq<Answer>, items: seq<Item>, route: bytes -> nat, done: set<nat>): nat
    requires |answers| == |items|
  {
    if items == [] then 0
    else
      (if route(items[0].key) in done && answers[0].Count? then answers[0].n else 0)
      + Tally(answers[1..], items[1..], route, done)
  }

  lemma {:induction false} TallyMore(answers: seq<Answer>, items: seq<Item>, route: bytes -> nat, done: set<nat>, s: nat)
    requires |answers| == |items| && s !in done
    ensures Tally(answers, items, route, done + {s}) == Tally(answers, items, route, done) + Tally(answers, items, route, {s})
    decreases |items|
  {
    if items != [] {
      TallyMore(answers[1..], items[1..], route, done, s);
    }
  }

  lemma {:induction false} TallyNone(answers: seq<Answer>, items: seq<Item>, route: bytes -> nat)
    requires |answers| == |items|
    ensures Tally(answers, items, route, {}) == 0
    decreases |items|
  {
    if items != [] {
      TallyNone(answers[1..], items[1..], route);
    }
  }

  lemma {:induction false} TallyAll(answers: seq<Answer>, items: seq<Item>, route: bytes -> nat, done: set<nat>)
    requires |answers| == |items|
    requires forall s: nat :: Sub(items, route, s) != [] ==> s in done
    ensures Tally(answers, items, route, done) == Sum(answers)
    decreases |items|
  {
    if items != [] {
      assert Sub(items, route, route(items[0].key)) != [];
      forall s: nat | Sub(items[1..], route, s) != []
        ensures Sub(items, route, s) != []
      {}
      TallyAll(answers[1..], items[1..], route, done);
    }
  }

  /** A shard counts what the whole command counts for its keys. */
  lemma {:induction false} TallyShard(whole: Db, db: Db, items: seq<Item>, route: bytes -> nat, s: nat, now: Time)
    requires Agree(whole, db, route, s) && Own(db, route, s)
    ensures Tally(Answers(whole, items, now), items, route, {s}) == Sum(Answers(db, Sub(items, route, s), now))
    decreases |items|
  {
    hide Act, AnswerOf, Agree, Own;
    if items != [] {
      var i, rest := items[0], items[1..];
      var whole' := Act(whole, i, now);
      assert Answers(whole, items, now)[1..] == Answers(whole', rest, now);
      if route(i.key) == s {
        var db' := Act(db, i, now);
        StepTogether(whole, db, i, route, s, now);
        TallyShard(whole', db', rest, route, s, now);
        assert Sub(items, route, s)[0] == i && Sub(items, route, s)[1..] == Sub(rest, route, s);
        assert Answers(db, Sub(items, route, s), now)[1..] == Answers(db', Sub(rest, route, s), now);
      } else {
        StepAlone(whole, db, i, route, s, now);
        TallyShard(whole', db, rest, route, s, now);
        assert Sub(items, route, s) == Sub(rest, route, s);
      }
    }
  }

  lemma {:induction false} SumBound(db: Db, items: seq<Item>, now: Time)
    ensures Sum(Answers(db, items, now)) <= |items|
    decreases |items|
  {
    hide Act;
    if items != [] {
      SumBound(Act(db, items[0], now), items[1..], now);
      assert Answers(db, items, now)[1..] == Answers(Act(db, items[0], now), items[1..], now);
    }
  }

  function IntegerOr0(buf: bytes): int {
    var n := ParseInteger(buf);
    if n.Some? then n.value else 0
  }

  /** The integer that comes back from a shard is what it adds to the total. */
  lemma ShardTotal(kind: Kind, whole: Db, db: Db, items: seq<Item>, route: bytes -> nat, s: nat, now: Time)
    requires kind.DEL? || kind.EXISTS?
    requires Agree(whole, db, route, s) && Own(db, route, s) && Uniform(kind, items) && InI64(|items|)
    ensures IntegerOr0(ReplyTo(kind, db, Sub(items, route, s), now)) == Tally(Answers(whole, items, now), items, route, {s})
  {
    hide Agree, Own, Tally, Sum, Answers, Sub, ParseInteger, IntegerReply;
    TallyShard(whole, db, items, route, s, now);
    SubUniform(kind, items, route, s);
    SumBound(db, Sub(items, route, s), now);
    Gather.IntegerRoundTrip(Sum(Answers(db, Sub(items, route, s), now)));
  }

  /** What every loop over the shards knows: the shards visited so far have run their parts. */
  ghost predicate Underway(shards: seq<DbSlice>, rows: seq<seq<Db>>, i: nat, items: seq<Item>, route: bytes -> nat,
                           groups: map<nat, seq<Item>>, done: set<nat>, now: Time)
    reads shards
  {
    && i < 16 && Wide(rows) && Cluster(shards, Visited(rows, i, items, route, done, now))
    && Pending(groups, items, route, done, |shards|)
  }

  /** Send one group to its shard and take the reply. */
  method Visit(shards: seq<DbSlice>, sid: nat, i: nat, kind: Kind, items: seq<Item>, now: Time, route: bytes -> nat,
               groups: map<nat, seq<Item>>, ghost rows: seq<seq<Db>>, ghost done: set<nat>) returns (buf: bytes)
    requires sid in groups && Uniform(kind, items) && Underway(shards, rows, i, items, route, groups, done, now)
    modifies shards
    ensures sid < |rows| == |shards|
    ensures Underway(shards, rows, i, items, route, groups - {sid}, done + {sid}, now)
    ensures buf == ReplyTo(kind, rows[sid][i], Sub(items, route, sid), now)
  {
    hide Sub, Visited, ReplyTo, Uniform, Updated, Cluster;
    ghost var here := Visited(rows, i, items, route, done, now);
    ClusterWide(shards, here);
    SubUniform(kind, items, route, sid);
    VisitedMore(rows, i, items, route, done, sid, now);
    buf := RunOn(shards, sid, i, kind, groups[sid], now, here);
    OneSent(groups, items, route, done, |shards|, sid);
  }

  lemma Finished(shards: seq<DbSlice>, rows: seq<seq<Db>>, i: nat, items: seq<Item>, route: bytes -> nat, done: set<nat>,
                 now: Time)
    requires Underway(shards, rows, i, items, route, map[], done, now)
    ensures Cluster(shards, AllRun(rows, i, items, route, now))
    ensures forall s: nat :: Sub(items, route, s) != [] ==> s in done
  {
    hide Sub, Visited, Cluster, AllRun;
    VisitedAll(rows, i, items, route, done, now);
  }

  lemma Started(shards: seq<DbSlice>, rows: seq<seq<Db>>, i: nat, items: seq<Item>, route: bytes -> nat,
                groups: map<nat, seq<Item>>, now: Time)
    requires Cluster(shards, rows) && i < 16 && Total(route, |shards|) && Grouped(groups, items, route)
    ensures Underway(shards, rows, i, items, route, groups, {}, now)
  {
    hide Sub, Visited, Cluster, Grouped;
    ClusterWide(shards, rows);
    VisitedNone(rows, i, items, route, now);
    AllPending(groups, items, route, |shards|);
  }

  /** Send one group and add what comes back to the total. */
  method VisitSum(shards: seq<DbSlice>, sid: nat, i: nat, kind: Kind, items: seq<Item>, now: Time, route: bytes -> nat,
                  groups: map<nat, seq<Item>>, total: int, ghost rows: seq<seq<Db>>, ghost whole: Db, ghost done: set<nat>)
    returns (sum: int)
    requires (kind.DEL? || kind.EXISTS?) && Uniform(kind, items) && InI64(|items|)
    requires sid in groups && Underway(shards, rows, i, items, route, groups, done, now)
    requires i < 16 && Wide(rows) && Spread(whole, Column(rows, i), route)
    requires total == Tally(Answers(whole, items, now), items, route, done)
    modifies shards
    ensures Underway(shards, rows, i, items, route, groups - {sid}, done + {sid}, now)
    ensures sum == Tally(Answers(whole, items, now), items, route, done + {sid})
  {
    hide Sub, Answers, Uniform, Tally, Agree, Own, Underway, IntegerOr0, ReplyTo;
    NotDone(shards, rows, i, items, route, groups, done, now, sid);
    var buf := Visit(shards, sid, i, kind, items, now, route, groups, rows, done);
    assert Column(rows, i)[sid] == rows[sid][i];
    ShardTotal(kind, whole, rows[sid][i], items, route, sid, now);
    TallyMore(Answers(whole, items, now), items, route, done, sid);
    sum := total + IntegerOr0(buf);
  }

  /**
   DEL and EXISTS: the keys are split by shard, the local part runs first, the others in any order,
   and the counts are added. The client sees what one unsharded store would have answered.
   */
  method DispatchSum(shards: seq<DbSlice>, local: nat, i: nat, kind: Kind, items: seq<Item>, now: Time,
                     route: bytes -> nat, ghost rows: seq<seq<Db>>, ghost whole: Db) returns (reply: bytes)
    requires Cluster(shards, rows) && Wide(rows) && i < 16 && Total(route, |shards|)
    requires (kind.DEL? || kind.EXISTS?) && Uniform(kind, items) && InI64(|items|)
    requires Spread(whole, Column(rows, i), route)
    modifies shards
    ensures Cluster(shards, AllRun(rows, i, items, route, now))
    ensures Spread(Run(whole, items, now), Column(AllRun(rows, i, items, route, now), i), route)
    ensures reply == ReplyTo(kind, whole, items, now)
  {
    hide Sub, Run, Answers, Cluster, AllRun, Uniform, Tally, Sum, Underway, IntegerReply, Grouped, Wide, Total, Spread, Column;
    var groups := Split(items, route);
    Started(shards, rows, i, items, route, groups, now);
    ghost var done: set<nat> := {};
    var total := 0;
    TallyNone(Answers(whole, items, now), items, route);
    if local in groups {
      total := VisitSum(shards, local, i, kind, items, now, route, groups, total, rows, whole, done);
      groups, done := groups - {local}, done + {local};
    }
    while groups != map[]
      invariant Underway(shards, rows, i, items, route, groups, done, now)
      invariant total == Tally(Answers(whole, items, now), items, route, done)
      decreases |groups|
    {
      var sid: nat :| sid in groups;
      total := VisitSum(shards, sid, i, kind, items, now, route, groups, total, rows, whole, done);
      groups, done := groups - {sid}, done + {sid};
    }
    Finished(shards, rows, i, items, route, done, now);
    TallyAll(Answers(whole, items, now), items, route, done);
    SpreadRun(whole, rows, i, items, route, now);
    var rb := new ReplyBuilder([]);
    rb.SendInteger(total);
    return rb.buf;
  }

  lemma NotDone(shards: seq<DbSlice>, rows: seq<seq<Db>>, i: nat, items: seq<Item>, route: bytes -> nat,
                groups: map<nat, seq<Item>>, done: set<nat>, now: Time, s: nat)
    requires Underway(shards, rows, i, items, route, groups, done, now) && s in groups
    ensures s !in done
  {}

  // ---- MSET ----

  /** MSET: the pairs are split by shard; replies are awaited and dropped. */
  method DispatchMSet(shards: seq<DbSlice>, local: nat, i: nat, items: seq<Item>, now: Time,
                      route: bytes -> nat, ghost rows: seq<seq<Db>>, ghost whole: Db) returns (reply: bytes)
    requires Cluster(shards, rows) && Wide(rows) && i < 16 && Total(route, |shards|)
    requires Uniform(MSET, items) && Spread(whole, Column(rows, i), route)
    modifies shards
    ensures Cluster(shards, AllRun(rows, i, items, route, now))
    ensures Spread(Run(whole, items, now), Column(AllRun(rows, i, items, route, now), i), route)
    ensures reply == ReplyTo(MSET, whole, items, now)
  {
    hide Sub, Run, Answers, Cluster, AllRun, Uniform, Underway, Grouped, Wide, Total, Spread, Column;
    var groups := Split(items, route);
    Started(shards, rows, i, items, route, groups, now);
    ghost var done: set<nat> := {};
    if local in groups {
      var _ := Visit(shards, local, i, MSET, items, now, route, groups, rows, done);
      groups, done := groups - {local}, done + {local};
    }
    while groups != map[]
      invariant Underway(shards, rows, i, items, route, groups, done, now)
      decreases |groups|
    {
      var sid: nat :| sid in groups;
      var _ := Visit(shards, sid, i, MSET, items, now, route, groups, rows, done);
      groups, done := groups - {sid}, done + {sid};
    }
    Finished(shards, rows, i, items, route, done, now);
    SpreadRun(whole, rows, i, items, route, now);
    return OK_REPLY;
  }

  // ---- MGET ----

  lemma {:induction false} PlacesMore(items: seq<Item>, i: Item, route: bytes -> nat, s: nat, from: nat)
    ensures Places(items + [i], route, s, from)
         == Places(items, route, s, from) + if route(i.key) == s then [from + |items|] else []
    decreases |items|
  {
    if items == [] {
      assert items + [i] == [i] && [i][1..] == [];
    } else {
      var head: seq<int> := if route(items[0].key) == s then [from] else [];
      var last: seq<int> := if route(i.key) == s then [from + |items|] else [];
      assert (items + [i])[1..] == items[1..] + [i];
      PlacesMore(items[1..], i, route, s, from + 1);
      Joined(head, Places(items[1..], route, s, from + 1), last);
    }
  }

  function PlacesFor(places: map<nat, seq<int>>, s: nat): seq<int> { if s in places then places[s] else [] }

  ghost predicate Placed(places: map<nat, seq<int>>, items: seq<Item>, route: bytes -> nat) {
    forall s: nat :: PlacesFor(places, s) == Places(items, route, s)
  }

  /** The first loop of MGET: each key goes to its shard's group together with its position. */
  method SplitPlaced(items: seq<Item>, route: bytes -> nat) returns (groups: map<nat, seq<Item>>, places: map<nat, seq<int>>)
    ensures Grouped(groups, items, route) && Placed(places, items, route)
  {
    hide Grouped, Placed;
    groups, places := map[], map[];
    NonePlaced(route);
    assert items[..0] == [];
    for j := 0 to |items|
      invariant Grouped(groups, items[..j], route) && Placed(places, items[..j], route)
    {
      var item := items[j];
      var sid := route(item.key);
      ghost var was, here := groups, places;
      groups := groups[sid := (if sid in groups then groups[sid] else []) + [item]];
      places := places[sid := PlacesFor(places, sid) + [j]];
      assert items[..j + 1] == items[..j] + [item];
      GroupedMore(was, groups, items[..j], item, route);
      PlacedMore(here, places, items[..j], item, route);
    }
    assert items[..|items|] == items;
  }

  lemma NonePlaced(route: bytes -> nat)
    ensures Grouped(map[], [], route) && Placed(map[], [], route)
  {}

  lemma PlacedMore(places: map<nat, seq<int>>, more: map<nat, seq<int>>, items: seq<Item>, i: Item, route: bytes -> nat)
    requires Placed(places, items, route)
    requires var s := route(i.key); more == places[s := PlacesFor(places, s) + [|items|]]
    ensures Placed(more, items + [i], route)
  {
    hide Places;
    forall s: nat
      ensures PlacesFor(more, s) == Places(items + [i], route, s)
    {
      PlacesMore(items, i, route, s, 0);
    }
  }

  /** Values are known for the places whose shards have answered. */
  ghost predicate Partly(results: seq<Option<bytes>>, texts: seq<Option<bytes>>, items: seq<Item>, route: bytes -> nat,
                         done: set<nat>) {
    && |results| == |texts| == |items|
    && forall p :: 0 <= p < |items| ==> results[p] == if route(items[p].key) in done then texts[p] else None
  }

  /** The values of one shard are written to the positions its keys came from. */
  method Place(results: seq<Option<bytes>>, places: seq<int>, values: seq<Option<bytes>>, ghost texts: seq<Option<bytes>>)
    returns (merged: seq<Option<bytes>>)
    requires |results| == |texts| && Gathers(values, places, texts, 0)
    ensures |merged| == |results|
    ensures forall p :: 0 <= p < |results| ==> merged[p] == if p in places then texts[p] else results[p]
  {
    merged := results;
    for idx := 0 to |places|
      invariant |merged| == |results|
      invariant forall p :: 0 <= p < |results| ==> merged[p] == if p in places[..idx] then texts[p] else results[p]
    {
      if idx < |values| {
        merged := merged[places[idx] := values[idx]];
      }
      assert places[..idx + 1] == places[..idx] + [places[idx]];
    }
    assert places[..|places|] == places;
  }

  lemma TextsGather(part: seq<Answer>, places: seq<int>, all: seq<Answer>)
    requires Gathers(part, places, all, 0)
    ensures Gathers(Texts(part), places, Texts(all), 0)
    ensures Printable(Texts(all)) && |part| <= |all| ==> Printable(Texts(part))
  {}

  /** The array that comes back from a shard is its share of the whole array. */
  lemma ShardValues(whole: Db, db: Db, items: seq<Item>, route: bytes -> nat, s: nat, now: Time)
    requires Agree(whole, db, route, s) && Own(db, route, s) && Uniform(MGET, items)
    requires Printable(Texts(Answers(whole, items, now)))
    ensures Gathers(ArrayValues(ReplyTo(MGET, db, Sub(items, route, s), now)), Places(items, route, s),
                    Texts(Answers(whole, items, now)), 0)
  {
    hide Agree, Own, Answers, Sub, Places, ArrayValues, ArrayReply, Gathers, Texts, Printable;
    var part := Answers(db, Sub(items, route, s), now);
    SubAnswers(whole, db, items, route, s, now, 0);
    SubUniform(MGET, items, route, s);
    TextsGather(part, Places(items, route, s), Answers(whole, items, now));
    ArrayRoundTrip(Texts(part));
  }

  lemma PartlyMore(results: seq<Option<bytes>>, merged: seq<Option<bytes>>, texts: seq<Option<bytes>>, items: seq<Item>,
                   route: bytes -> nat, done: set<nat>, s: nat)
    requires Partly(results, texts, items, route, done) && |merged| == |results|
    requires forall p :: 0 <= p < |results| ==> merged[p] == if p in Places(items, route, s) then texts[p] else results[p]
    ensures Partly(merged, texts, items, route, done + {s})
  {
    hide Places;
    forall p | 0 <= p < |items|
      ensures merged[p] == if route(items[p].key) in done + {s} then texts[p] else None
    {
      PlaceOf(items, route, s, 0, p);
    }
  }

  lemma PartlySize(results: seq<Option<bytes>>, texts: seq<Option<bytes>>, items: seq<Item>, route: bytes -> nat, done: set<nat>)
    requires Partly(results, texts, items, route, done)
    ensures |results| == |texts|
  {}

  /** Send one group of keys and file the values that come back. */
  method VisitGet(shards: seq<DbSlice>, sid: nat, i: nat, items: seq<Item>, now: Time, route: bytes -> nat,
                  groups: map<nat, seq<Item>>, places: map<nat, seq<int>>, results: seq<Option<bytes>>,
                  ghost rows: seq<seq<Db>>, ghost whole: Db, ghost done: set<nat>)
    returns (merged: seq<Option<bytes>>)
    requires Uniform(MGET, items) && Printable(Texts(Answers(whole, items, now)))
    requires sid in groups && Underway(shards, rows, i, items, route, groups, done, now)
    requires i < 16 && Wide(rows) && Spread(whole, Column(rows, i), route)
    requires Placed(places, items, route) && Partly(results, Texts(Answers(whole, items, now)), items, route, done)
    modifies shards
    ensures Underway(shards, rows, i, items, route, groups - {sid}, done + {sid}, now)
    ensures Partly(merged, Texts(Answers(whole, items, now)), items, route, done + {sid})
  {
    hide Sub, Answers, Uniform, Agree, Own, Underway, ReplyTo, Places, Placed, Gathers, Printable, Partly, Texts, ArrayValues, PlacesFor;
    ghost var texts := Texts(Answers(whole, items, now));
    PartlySize(results, texts, items, route, done);
    var buf := Visit(shards, sid, i, MGET, items, now, route, groups, rows, done);
    assert Column(rows, i)[sid] == rows[sid][i];
    ShardValues(whole, rows[sid][i], items, route, sid, now);
    var values := ParseArray(buf);
    PlacesAt(places, items, route, sid);
    merged := Place(results, PlacesFor(places, sid), values, texts);
    PartlyMore(results, merged, texts, items, route, done, sid);
  }

  function NoValues(n: nat): seq<Option<bytes>> { seq(n, p => None) }

  lemma PartlyNone(whole: Db, items: seq<Item>, now: Time, route: bytes -> nat)
    ensures Partly(NoValues(|items|), Texts(Answers(whole, items, now)), items, route, {})
  {
    hide Answers;
  }

  lemma PartlyAll(results: seq<Option<bytes>>, texts: seq<Option<bytes>>, items: seq<Item>, route: bytes -> nat, done: set<nat>)
    requires Partly(results, texts, items, route, done)
    requires forall s: nat :: Sub(items, route, s) != [] ==> s in done
    ensures results == texts
  {
    hide Sub;
    forall p | 0 <= p < |items|
      ensures results[p] == texts[p]
    {
      HasPart(items, route, p);
    }
  }

  /** The remote groups, in any order. */
  method GatherRemote(shards: seq<DbSlice>, i: nat, items: seq<Item>, now: Time, route: bytes -> nat,
                      waiting: map<nat, seq<Item>>, places: map<nat, seq<int>>, local: seq<Option<bytes>>,
                      ghost rows: seq<seq<Db>>, ghost whole: Db, ghost answered: set<nat>)
    returns (results: seq<Option<bytes>>)
    requires Uniform(MGET, items) && Printable(Texts(Answers(whole, items, now)))
    requires Underway(shards, rows, i, items, route, waiting, answered, now)
    requires i < 16 && Wide(rows) && Spread(whole, Column(rows, i), route)
    requires Placed(places, items, route) && Partly(local, Texts(Answers(whole, items, now)), items, route, answered)
    modifies shards
    ensures Cluster(shards, AllRun(rows, i, items, route, now))
    ensures results == Texts(Answers(whole, items, now))
  {
    hide Sub, Answers, Uniform, Underway, Spread, Column, Placed, Partly, Texts, Printable, Wide, AllRun, Cluster;
    var groups := waiting;
    ghost var done := answered;
    results := local;
    while groups != map[]
      invariant Underway(shards, rows, i, items, route, groups, done, now)
      invariant Partly(results, Texts(Answers(whole, items, now)), items, route, done)
      decreases |groups|
    {
      var sid: nat :| sid in groups;
      results := VisitGet(shards, sid, i, items, now, route, groups, places, results, rows, whole, done);
      groups, done := groups - {sid}, done + {sid};
    }
    Finished(shards, rows, i, items, route, done, now);
    PartlyAll(results, Texts(Answers(whole, items, now)), items, route, done);
  }

  /**
   MGET: the keys are split by shard, and each value is put back at the position of its key. The client
   sees the array that one unsharded store would have printed.
   */
  method DispatchMGet(shards: seq<DbSlice>, local: nat, i: nat, items: seq<Item>, now: Time,
                      route: bytes -> nat, ghost rows: seq<seq<Db>>, ghost whole: Db) returns (reply: bytes)
    requires Cluster(shards, rows) && Wide(rows) && i < 16 && Total(route, |shards|)
    requires Uniform(MGET, items) && Printable(Texts(Answers(whole, items, now)))
    requires Spread(whole, Column(rows, i), route)
    modifies shards
    ensures Cluster(shards, AllRun(rows, i, items, route, now))
    ensures Spread(Run(whole, items, now), Column(AllRun(rows, i, items, route, now), i), route)
    ensures reply == ReplyTo(MGET, whole, items, now)
  {
    hide Sub, Run, Answers, Cluster, AllRun, Uniform, Underway, Grouped, Wide, Total, Spread, Column, Placed, Places, Partly, Texts,
         ArrayReply, Printable, NoValues;
    SpreadRun(whole, rows, i, items, route, now);
    var groups, places := SplitPlaced(items, route);
    Started(shards, rows, i, items, route, groups, now);
    var results := NoValues(|items|);
    PartlyNone(whole, items, now, route);
    ghost var done: set<nat> := {};
    if local in groups {
      results := VisitGet(shards, local, i, items, now, route, groups, places, results, rows, whole, done);
      groups, done := groups - {local}, done + {local};
    }
    results := GatherRemote(shards, i, items, now, route, groups, places, results, rows, whole, done);
    var rb := new ReplyBuilder([]);
    rb.SendOptions(results);
    return rb.buf;
  }

  lemma PlacesAt(places: map<nat, seq<int>>, items: seq<Item>, route: bytes -> nat, s: nat)
    requires Placed(places, items, route)
    ensures PlacesFor(places, s) == Places(items, route, s)
  {}
}
