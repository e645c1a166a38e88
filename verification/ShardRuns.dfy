/** What every interleaving of connections, queues and shards keeps. */
module ShardRuns {
  import opened Common
  import opened PrimeValues
  import opened Databases
  import opened KeyOps
  import opened Scatter
  import opened ShardTasks
  import opened ShardSystem
  import opened Deliveries
  import C = Commands
  import R = RdbFiles

  // ---- The unsharded store ----

  function Replay(store: seq<Db>, log: seq<Executed>): (r: seq<Db>)
    requires |store| == 16 && forall j :: 0 <= j < |log| ==> log[j].msg.db < 16
    ensures |r| == 16
    decreases |log|
  {
    if log == [] then store
    else
      var before, e := Replay(store, log[..|log| - 1]), log[|log| - 1];
      before[e.msg.db := Perform(before[e.msg.db], e.msg.task, e.now)]
  }

  ghost predicate LogFits(log: seq<Executed>) { forall j :: 0 <= j < |log| ==> log[j].msg.db < 16 }

  /** Every answer was the answer of the unsharded store at that moment. */
  ghost predicate Honest(store: seq<Db>, log: seq<Executed>)
    requires |store| == 16 && LogFits(log)
  {
    forall j :: 0 <= j < |log| ==>
                  var e := log[j];
                  e.outcome == OutcomeOf(Replay(store, log[..j])[e.msg.db], e.msg.task, e.now)
  }

  ghost predicate SpreadAll(store: seq<Db>, rows: seq<seq<Db>>, route: bytes -> nat)
    requires |store| == 16 && Wide(rows)
  {
    forall i :: 0 <= i < 16 ==> Spread(store[i], Column(rows, i), route)
  }

  ghost predicate WellAddressed(ms: seq<Message>, route: bytes -> nat, n: nat) {
    forall j :: 0 <= j < |ms| ==> Fits(ms[j], n) && Addressed(ms[j].task, route, ms[j].shard)
  }

  /** Tasks only ever travel to the shard of their keys, and the shards are the store with the log replayed. */
  ghost predicate Inv(store: seq<Db>, st: State, route: bytes -> nat): (b: bool)
    requires |store| == 16
    ensures b ==> Shape(st)
  {
    && Shape(st) && LogFits(st.log)
    && WellAddressed(st.flight, route, |st.rows|)
    && (forall s :: 0 <= s < |st.queues| ==> WellAddressed(st.queues[s], route, |st.rows|))
    && SpreadAll(Replay(store, st.log), st.rows, route)
    && Honest(store, st.log)
  }

  // ---- One step ----

  lemma ReplayMore(store: seq<Db>, log: seq<Executed>, e: Executed)
    requires |store| == 16 && LogFits(log) && e.msg.db < 16
    ensures LogFits(log + [e])
    ensures var before := Replay(store, log);
            Replay(store, log + [e]) == before[e.msg.db := Perform(before[e.msg.db], e.msg.task, e.now)]
  {
    hide Perform;
    assert (log + [e])[..|log|] == log;
  }

  lemma HonestMore(store: seq<Db>, log: seq<Executed>, e: Executed)
    requires |store| == 16 && LogFits(log) && e.msg.db < 16 && Honest(store, log)
    requires e.outcome == OutcomeOf(Replay(store, log)[e.msg.db], e.msg.task, e.now)
    ensures LogFits(log + [e]) && Honest(store, log + [e])
  {
    hide OutcomeOf, Replay;
    var more := log + [e];
    forall j | 0 <= j < |more|
      ensures more[j].outcome == OutcomeOf(Replay(store, more[..j])[more[j].msg.db], more[j].msg.task, more[j].now)
    {
      if j < |log| {
        assert more[..j] == log[..j];
      } else {
        assert more[..j] == log;
      }
    }
  }

  /** Running on the shard of its keys is running on the union. */
  lemma SpreadTask(whole: Db, shards: seq<Db>, t: Task, route: bytes -> nat, s: nat, now: Time)
    requires s < |shards| && Spread(whole, shards, route) && Addressed(t, route, s)
    ensures Spread(Perform(whole, t, now), shards[s := Perform(shards[s], t, now)], route)
    ensures OutcomeOf(whole, t, now) == OutcomeOf(shards[s], t, now)
  {
    hide Agree, Own, Perform, OutcomeOf, Addressed;
    TaskTogether(whole, shards[s], t, route, s, now);
    forall r | 0 <= r < |shards| && r != s
      ensures Agree(Perform(whole, t, now), shards[r], route, r)
    {
      TaskElsewhere(whole, shards[r], t, route, r, s, now);
    }
  }

  lemma ColumnUpdate(rows: seq<seq<Db>>, s: nat, i: nat, db: Db, j: nat)
    requires Wide(rows) && s < |rows| && i < 16 && j < 16
    ensures Wide(rows[s := rows[s][i := db]])
    ensures Column(rows[s := rows[s][i := db]], j) == if j == i then Column(rows, i)[s := db] else Column(rows, j)
  {
    assert Column(rows[s := rows[s][i := db]], j) == if j == i then Column(rows, i)[s := db] else Column(rows, j);
  }

  lemma ExecKeeps(store: seq<Db>, st: State, m: Message, route: bytes -> nat, now: Time)
    requires |store| == 16 && Inv(store, st, route) && Fits(m, |st.rows|) && Addressed(m.task, route, m.shard)
    ensures Inv(store, Exec(st, m, now), route)
  {
    hide Spread, Perform, OutcomeOf, Addressed, Replay, Honest, Column, WellAddressed;
    var db := st.rows[m.shard][m.db];
    var before := Replay(store, st.log);
    var e := Executed(m, now, OutcomeOf(db, m.task, now));
    var rows' := st.rows[m.shard := st.rows[m.shard][m.db := Perform(db, m.task, now)]];
    assert Column(st.rows, m.db)[m.shard] == db by { ColumnAt(st.rows, m.db, m.shard); }
    SpreadTask(before[m.db], Column(st.rows, m.db), m.task, route, m.shard, now);
    ReplayMore(store, st.log, e);
    HonestMore(store, st.log, e);
    forall i | 0 <= i < 16
      ensures Spread(Replay(store, st.log + [e])[i], Column(rows', i), route)
    {
      ColumnUpdate(st.rows, m.shard, m.db, Perform(db, m.task, now), i);
    }
  }

  lemma ColumnAt(rows: seq<seq<Db>>, i: nat, s: nat)
    requires Wide(rows) && i < 16 && s < |rows|
    ensures Column(rows, i)[s] == rows[s][i]
  {}

  lemma RouteKeeps(store: seq<Db>, st: State, home: nat, m: Message, route: bytes -> nat, now: Time)
    requires |store| == 16 && Inv(store, st, route) && Fits(m, |st.rows|) && Addressed(m.task, route, m.shard)
    ensures Inv(store, Route(st, home, m, now), route)
  {
    hide Addressed, Exec, SpreadAll, Honest, Replay;
    if m.shard == home {
      ExecKeeps(store, st, m, route, now);
    }
  }

  lemma {:induction false} SubAddressed(items: seq<Item>, route: bytes -> nat, s: nat)
    ensures Addressed(Keys(Sub(items, route, s)), route, s)
  {
    if items != [] {
      SubAddressed(items[1..], route, s);
    }
  }

  lemma {:induction false} PartsKeep(store: seq<Db>, st: State, home: nat, db: nat, items: seq<Item>,
                                     route: bytes -> nat, s: nat, now: Time)
    requires |store| == 16 && Inv(store, st, route) && s <= |st.rows| && db < 16
    ensures Inv(store, RouteParts(st, home, db, items, route, s, now), route)
    decreases |st.rows| - s
  {
    hide Inv, Sub, Route, Addressed;
    if s < |st.rows| {
      var part := Sub(items, route, s);
      SubAddressed(items, route, s);
      if part == [] || s == home {
        PartsKeep(store, st, home, db, items, route, s + 1, now);
      } else {
        var m := Message(s, db, Keys(part));
        RouteKeeps(store, st, home, m, route, now);
        PartsKeep(store, Route(st, home, m, now), home, db, items, route, s + 1, now);
      }
    }
  }

  lemma SubmitKeeps(store: seq<Db>, st: State, home: nat, db: nat, cmd: Command, route: bytes -> nat, now: Time)
    requires |store| == 16 && Inv(store, st, route) && home < |st.rows| && db < 16 && Total(route, |st.rows|)
    ensures Inv(store, SubmitCommand(st, home, db, cmd, route, now), route)
    ensures InSystem(SubmitCommand(st, home, db, cmd, route, now)) == InSystem(st) + Shares(db, cmd, route, |st.rows|)
  {
    hide Inv, Sub, Route, RouteParts, Exec, InSystem, Shares;
    SubmitAdds(st, home, db, cmd, route, now);
    match cmd
    case OneKey(k, f) => RouteKeeps(store, st, home, Message(route(k), db, Single(k, f)), route, now);
    case ManyKeys(items) =>
      hide Addressed;
      var part := Sub(items, route, home);
      SubAddressed(items, route, home);
      if part == [] {
        PartsKeep(store, st, home, db, items, route, 0, now);
      } else {
        var m := Message(home, db, Keys(part));
        ExecKeeps(store, st, m, route, now);
        PartsKeep(store, Exec(st, m, now), home, db, items, route, 0, now);
      }
    case MSetNx(pairs) =>
      if pairs != [] && SameShard(pairs, route) {
        RouteKeeps(store, st, home, Message(route(pairs[0].0), db, SetNx(pairs)), route, now);
      }
    case Rename(from, to) =>
      if route(from) == route(to) {
        RouteKeeps(store, st, home, Message(route(from), db, Move(from, to)), route, now);
      }
    case AllShards(g) =>
      var m := Message(home, db, Every(g, OwnedBy(route, home)));
      ExecKeeps(store, st, m, route, now);
      AllKeep(store, Exec(st, m, now), home, db, g, route, 0, now);
  }

  lemma {:induction false} AllKeep(store: seq<Db>, st: State, home: nat, db: nat, g: Global, route: bytes -> nat, s: nat,
                                   now: Time)
    requires |store| == 16 && Inv(store, st, route) && s <= |st.rows| && db < 16
    ensures Inv(store, RouteAll(st, home, db, g, route, s, now), route)
    decreases |st.rows| - s
  {
    hide Inv, Route;
    if s < |st.rows| {
      if s == home {
        AllKeep(store, st, home, db, g, route, s + 1, now);
      } else {
        var m := Message(s, db, Every(g, OwnedBy(route, s)));
        RouteKeeps(store, st, home, m, route, now);
        AllKeep(store, Route(st, home, m, now), home, db, g, route, s + 1, now);
      }
    }
  }

  lemma {:induction false} LoadKeeps(store: seq<Db>, st: State, s: nat, entries: seq<R.RdbEntry>, route: bytes -> nat, now: Time)
    requires |store| == 16 && Inv(store, st, route) && s < |st.rows| && Loadable(entries, route, s)
    ensures Inv(store, LoadInto(st, s, entries, now), route)
    decreases |entries|
  {
    hide Inv, Exec;
    if entries != [] {
      var e := entries[0];
      var m := Message(s, e.db, Single(e.key, LoadEffect(e)));
      ExecKeeps(store, st, m, route, now);
      LoadKeeps(store, Exec(st, m, now), s, entries[1..], route, now);
    }
  }

  /** The keys of a shard's expiry table are its own. */
  lemma SweepAddressed(store: seq<Db>, st: State, s: nat, db: nat, keys: seq<bytes>, route: bytes -> nat)
    requires |store| == 16 && Inv(store, st, route) && s < |st.rows| && db < 16
    requires forall k :: k in keys ==> k in st.rows[s][db].expire
    ensures Addressed(Keys(Checks(keys)), route, s)
  {
    hide Replay, Honest, WellAddressed;
    assert Spread(Replay(store, st.log)[db], Column(st.rows, db), route);
    ColumnAt(st.rows, db, s);
    assert Own(st.rows[s][db], route, s);
    forall j | 0 <= j < |keys|
      ensures route(keys[j]) == s
    {
      assert keys[j] in keys;
      assert CellOf(st.rows[s][db], keys[j]).deadline.Some?;
    }
  }

  lemma DeliverKeeps(store: seq<Db>, st: State, j: nat, route: bytes -> nat)
    requires |store| == 16 && Inv(store, st, route) && Total(route, |st.rows|)
    ensures Inv(store, Next(st, Deliver(j), route), route)
  {
    hide Replay, Honest, SpreadAll, Addressed;
  }

  lemma WorkKeeps(store: seq<Db>, st: State, s: nat, now: Time, route: bytes -> nat)
    requires |store| == 16 && Inv(store, st, route) && Total(route, |st.rows|)
    ensures Inv(store, Next(st, Work(s, now), route), route)
  {
    hide Replay, Honest, SpreadAll, Addressed, Exec;
    if s < |st.queues| && st.queues[s] != [] {
      var m := st.queues[s][0];
      assert Fits(m, |st.rows|) && Addressed(m.task, route, m.shard);
      var st' := st.(queues := st.queues[s := st.queues[s][1..]]);
      assert Inv(store, st', route);
      ExecKeeps(store, st', m, route, now);
    }
  }

  lemma NextKeeps(store: seq<Db>, st: State, e: Event, route: bytes -> nat)
    requires |store| == 16 && Inv(store, st, route) && Total(route, |st.rows|)
    ensures Inv(store, Next(st, e, route), route)
    ensures InSystem(Next(st, e, route)) == InSystem(st) + Handed(st, e, route)
  {
    hide InSystem, Handed, Replay, Honest, SpreadAll, Addressed, Exec, SubmitCommand, WellAddressed, LoadInto;
    NextConserves(st, e, route);
    match e
    case Submit(home, db, cmd, now) =>
      if home < |st.rows| && db < 16 {
        SubmitKeeps(store, st, home, db, cmd, route, now);
      }
    case Deliver(j) => DeliverKeeps(store, st, j, route);
    case Work(s, now) => WorkKeeps(store, st, s, now, route);
    case Sweep(s, db, keys, now) =>
      if s < |st.rows| && db < 16 && forall k :: k in keys ==> k in st.rows[s][db].expire {
        SweepAddressed(store, st, s, db, keys, route);
        ExecKeeps(store, st, Message(s, db, Keys(Checks(keys))), route, now);
      }
    case Snapshot(_) =>
    case Load(s, entries, now) =>
      if s < |st.rows| && Loadable(entries, route, s) {
        LoadKeeps(store, st, s, entries, route, now);
      }
  }

  // ---- Whole runs ----

  /**
   Along every interleaving of connections, deliveries, shard loops, sweeps, snapshots and loads, every key
   stays on its own shard, the union of the shards is the unsharded store after all that was executed, in order, and
   every task was answered as the unsharded store would have answered it. Each task that was handed in has
   been run or is still waiting, as often as it was handed in.
   */
  lemma {:induction false} RunKeeps(store: seq<Db>, st: State, events: seq<Event>, route: bytes -> nat)
    requires |store| == 16 && Inv(store, st, route) && Total(route, |st.rows|)
    ensures Inv(store, Play(st, events, route), route)
    ensures InSystem(Play(st, events, route)) == InSystem(st) + AllHanded(st, events, route)
    decreases |events|
  {
    hide Inv, Next, InSystem, AllHanded;
    RunConserves(st, events, route);
    if events != [] {
      NextKeeps(store, st, events[0], route);
      RunKeeps(store, Next(st, events[0], route), events[1..], route);
    }
  }

  function Empty(n: nat): State { State(seq(n, s => EMPTY_ROW), [], seq(n, s => []), []) }

  const EMPTY_ROW: seq<Db> := seq(16, i => EMPTY_DB)

  lemma {:induction false} NothingQueued(queues: seq<seq<Message>>)
    requires forall s :: 0 <= s < |queues| ==> queues[s] == []
    ensures Queued(queues) == multiset{}
    decreases |queues|
  {
    if queues != [] {
      NothingQueued(queues[..|queues| - 1]);
    }
  }

  lemma EmptySystem(n: nat)
    ensures InSystem(Empty(n)) == multiset{}
  {
    NothingQueued(Empty(n).queues);
  }

  /** From an empty server, when nothing is waiting, exactly what was handed in has been run. */
  lemma NothingLost(n: nat, events: seq<Event>, route: bytes -> nat)
    requires n > 0 && Total(route, n)
    ensures InSystem(Play(Empty(n), events, route)) == AllHanded(Empty(n), events, route)
    ensures Quiet(Play(Empty(n), events, route)) ==> Logged(Play(Empty(n), events, route).log) == AllHanded(Empty(n), events, route)
  {
    hide Play, AllHanded, Logged, Waiting;
    EmptySystem(n);
    RunConserves(Empty(n), events, route);
  }

  lemma EmptyInv(n: nat, route: bytes -> nat)
    ensures Inv(EMPTY_ROW, Empty(n), route)
  {
    var st := Empty(n);
    forall i | 0 <= i < 16
      ensures Spread(EMPTY_ROW[i], Column(st.rows, i), route)
    {
      forall s | 0 <= s < n
        ensures Column(st.rows, i)[s] == EMPTY_DB
      {
        ColumnAt(st.rows, i, s);
      }
    }
  }

  /** Every run from an empty server answers honestly. */
  lemma EmptyHonest(n: nat, events: seq<Event>, route: bytes -> nat)
    requires n > 0 && Total(route, n)
    ensures var log := Play(Empty(n), events, route).log; LogFits(log) && Honest(EMPTY_ROW, log)
  {
    EmptyInv(n, route);
    hide Play, Replay, Honest, WellAddressed, SpreadAll, LogFits;
    RunKeeps(EMPTY_ROW, Empty(n), events, route);
  }

  /** A server that starts empty: whatever is stored on a shard belongs there, in every state it can reach. */
  lemma KeysStayHome(n: nat, events: seq<Event>, route: bytes -> nat, s: nat, i: nat, k: bytes)
    requires n > 0 && Total(route, n) && s < n && i < 16
    ensures var rows := Play(Empty(n), events, route).rows;
            |rows| == n && (k in rows[s][i].prime || k in rows[s][i].expire ==> route(k) == s)
  {
    EmptyInv(n, route);
    RunKeeps(EMPTY_ROW, Empty(n), events, route);
    var st := Play(Empty(n), events, route);
    hide Play, Replay, Honest, WellAddressed;
    assert Spread(Replay(EMPTY_ROW, st.log)[i], Column(st.rows, i), route);
    ColumnAt(st.rows, i, s);
    assert Own(st.rows[s][i], route, s);
    assert k in st.rows[s][i].prime ==> CellOf(st.rows[s][i], k).value.Some?;
    assert k in st.rows[s][i].expire ==> CellOf(st.rows[s][i], k).deadline.Some?;
  }

  // ---- A command on several keys, from start to end ----

  /** The union of the shards has run the whole command. */
  lemma PartsMakeWhole(whole: Db, before: seq<Db>, after: seq<Db>, items: seq<Item>, route: bytes -> nat, now: Time)
    requires Spread(whole, before, route) && |after| == |before|
    requires forall s :: 0 <= s < |before| ==> after[s] == KeyOps.Run(before[s], Sub(items, route, s), now)
    ensures Spread(KeyOps.Run(whole, items, now), after, route)
  {
    hide Agree, Own, KeyOps.Run, Sub;
    forall s | 0 <= s < |after|
      ensures Agree(KeyOps.Run(whole, items, now), after[s], route, s) && Own(after[s], route, s)
    {
      assert Agree(whole, before[s], route, s) && Own(before[s], route, s);
      SubSimulates(whole, before[s], items, route, s, now);
    }
  }

  /** The log holds the answers of shard `s`, which are those of the whole command at the places of its arguments. */
  ghost predicate AnsweredFor(log: seq<Executed>, whole: Db, db: nat, items: seq<Item>, route: bytes -> nat, s: nat, now: Time) {
    exists x :: x in log && x.msg.shard == s && x.msg.db == db && x.outcome.Answered?
                && Gathers(x.outcome.answers, Places(items, route, s, 0), Answers(whole, items, now), 0)
  }

  /**
   MGET, MSET, DEL and EXISTS over the shards: handed in by a connection when nothing is waiting, delivered and run
   in any order at one time. Once nothing is waiting any more, the shards hold what the unsharded store holds after
   the whole command, and every shard with arguments has answered for each of them as that store does.
   */
  lemma CommandCompletes(store: seq<Db>, st: State, home: nat, db: nat, items: seq<Item>, events: seq<Event>,
                         route: bytes -> nat, now: Time)
    requires |store| == 16 && Inv(store, st, route) && Total(route, |st.rows|) && home < |st.rows| && db < 16
    requires Quiet(st) && Quiet(Play(Next(st, Submit(home, db, ManyKeys(items), now), route), events, route))
    requires forall i :: 0 <= i < |events| ==> AtWork(events[i], now)
    ensures var r, whole := Play(Next(st, Submit(home, db, ManyKeys(items), now), route), events, route), Replay(store, st.log);
            && (forall i :: 0 <= i < 16 ==>
                  Spread(if i == db then KeyOps.Run(whole[db], items, now) else whole[i], Column(r.rows, i), route))
            && (forall s :: 0 <= s < |st.rows| && Sub(items, route, s) != [] ==>
                  AnsweredFor(r.log, whole[db], db, items, route, s, now))
  {
    hide Next, Play, Quiet, AtWork, PartsRun, Inv, Spread, Sub, KeyOps.Run, AnsweredFor, Replay;
    var r := Play(Next(st, Submit(home, db, ManyKeys(items), now), route), events, route);
    Completed(st, home, db, items, events, route, now);
    WholeStore(store, st, r, db, items, route, now);
  }

  lemma WholeStore(store: seq<Db>, st: State, r: State, db: nat, items: seq<Item>, route: bytes -> nat, now: Time)
    requires |store| == 16 && Inv(store, st, route) && PartsRun(st.rows, r, db, items, route, now)
    ensures var whole := Replay(store, st.log);
            && (forall i :: 0 <= i < 16 ==>
                  Spread(if i == db then KeyOps.Run(whole[db], items, now) else whole[i], Column(r.rows, i), route))
            && (forall s :: 0 <= s < |st.rows| && Sub(items, route, s) != [] ==>
                  AnsweredFor(r.log, whole[db], db, items, route, s, now))
  {
    hide Replay, Honest, WellAddressed, Spread, Sub, KeyOps.Run, AnsweredFor, PartAnswer;
    var whole := Replay(store, st.log);
    forall i | 0 <= i < 16
      ensures Spread(if i == db then KeyOps.Run(whole[db], items, now) else whole[i], Column(r.rows, i), route)
    {
      ColumnsMakeWhole(whole[i], st.rows, r.rows, db, i, items, route, now);
    }
    forall s | 0 <= s < |st.rows| && Sub(items, route, s) != []
      ensures AnsweredFor(r.log, whole[db], db, items, route, s, now)
    {
      ShardAnswers(whole[db], st.rows, r.log, db, items, route, s, now);
    }
  }

  lemma ColumnsMakeWhole(whole: Db, before: seq<seq<Db>>, after: seq<seq<Db>>, db: nat, i: nat, items: seq<Item>,
                         route: bytes -> nat, now: Time)
    requires Wide(before) && Wide(after) && |after| == |before| && db < 16 && i < 16 && Spread(whole, Column(before, i), route)
    requires forall s :: 0 <= s < |before| ==> after[s] == before[s][db := KeyOps.Run(before[s][db], Sub(items, route, s), now)]
    ensures Spread(if i == db then KeyOps.Run(whole, items, now) else whole, Column(after, i), route)
  {
    hide Spread, KeyOps.Run, Sub;
    forall s | 0 <= s < |before|
      ensures Column(before, i)[s] == before[s][i] && Column(after, i)[s] == after[s][i]
    {
      ColumnAt(before, i, s);
      ColumnAt(after, i, s);
    }
    if i == db {
      PartsMakeWhole(whole, Column(before, i), Column(after, i), items, route, now);
    } else {
      assert Column(after, i) == Column(before, i);
    }
  }

  lemma ShardAnswers(whole: Db, rows: seq<seq<Db>>, log: seq<Executed>, db: nat, items: seq<Item>, route: bytes -> nat,
                     s: nat, now: Time)
    requires Wide(rows) && s < |rows| && db < 16 && Spread(whole, Column(rows, db), route)
    requires PartAnswer(rows[s], db, items, route, s, now) in log
    ensures AnsweredFor(log, whole, db, items, route, s, now)
  {
    hide Agree, Own, Gathers, Answers, Sub;
    ColumnAt(rows, db, s);
    SubAnswers(whole, rows[s][db], items, route, s, now, 0);
  }

  // ---- MSETNX ----

  /** No key of the pairs is live. */
  ghost predicate NoneLive(db: Db, pairs: seq<(bytes, bytes)>, now: Time) {
    forall j :: 0 <= j < |pairs| ==> pairs[j].0 !in View(db, now)
  }

  /** Every key has its new value without a deadline, and nothing else changed that could be seen. */
  ghost predicate AllSet(before: Db, after: Db, pairs: seq<(bytes, bytes)>, now: Time) {
    forall k ::
      Peek(View(after, now), k) ==
      match C.LastOf(pairs, k)
      case Some(data) => Some(Databases.Entry(FromBytes(data), None))
      case None => Peek(View(before, now), k)
  }

  /** All keys are set if none was live; otherwise nothing changed that could be seen. */
  ghost predicate AllOrNothing(before: Db, after: Db, pairs: seq<(bytes, bytes)>, now: Time) {
    if NoneLive(before, pairs, now) then AllSet(before, after, pairs, now) else View(after, now) == View(before, now)
  }

  lemma {:induction false} CheckedView(db: Db, pairs: seq<(bytes, bytes)>, now: Time)
    requires WellFormed(db)
    ensures WellFormed(C.NxChecked(db, pairs, now)) && View(C.NxChecked(db, pairs, now), now) == View(db, now)
    ensures C.NxFree(db, pairs, now) ==> forall j :: 0 <= j < |pairs| ==> CellOf(C.NxChecked(db, pairs, now), pairs[j].0) == NOTHING
    decreases |pairs|
  {
    hide View, WellFormed, Found, Purged, CellOf;
    if pairs != [] {
      var k := pairs[0].0;
      PurgedView(db, k, now);
      if Found(db, k, now).None? {
        var db', rest := Purged(db, k, now), pairs[1..];
        CheckedView(db', rest, now);
        C.FoundAfterPurge(db, k, now);
        if C.NxFree(db, pairs, now) {
          assert forall j :: 0 <= j < |rest| ==> rest[j] == pairs[j + 1];
          PurgedCell(db, k, now);
          CheckedStays(db', rest, now, k);
          assert forall j :: 0 < j < |pairs| ==> pairs[j] == rest[j - 1];
        }
      }
    }
  }

  lemma PurgedCell(db: Db, k: bytes, now: Time)
    requires WellFormed(db) && Found(db, k, now).None?
    ensures CellOf(Purged(db, k, now), k) == NOTHING
  {}

  lemma {:induction false} CheckedStays(db: Db, pairs: seq<(bytes, bytes)>, now: Time, k: bytes)
    requires CellOf(db, k) == NOTHING
    ensures CellOf(C.NxChecked(db, pairs, now), k) == NOTHING
    decreases |pairs|
  {
    hide Found;
    if pairs != [] {
      CheckedStays(Purged(db, pairs[0].0, now), pairs[1..], now, k);
    }
  }

  lemma {:induction false} PlainView(db: Db, pairs: seq<(bytes, bytes)>, now: Time, k: bytes)
    requires WellFormed(db) && forall j :: 0 <= j < |pairs| ==> DeadlineOf(db, pairs[j].0).None?
    ensures WellFormed(C.PutPlain(db, pairs))
    ensures forall l :: DeadlineOf(C.PutPlain(db, pairs), l) == DeadlineOf(db, l)
    ensures Peek(View(C.PutPlain(db, pairs), now), k) ==
            match C.LastOf(pairs, k)
            case Some(data) => Some(Databases.Entry(FromBytes(data), None))
            case None => Peek(View(db, now), k)
    decreases |pairs|
  {
    hide View, WellFormed, FromBytes, Put, DeadlineOf;
    if pairs != [] {
      var n := |pairs| - 1;
      PlainView(db, pairs[..n], now, k);
      var was, j, v := C.PutPlain(db, pairs[..n]), pairs[n].0, FromBytes(pairs[n].1);
      PutView(was, j, v, now);
      C.PutKeepsDeadlines(was, j, v);
    }
  }

  /** MSETNX sets all of its keys if none is live, and then answers that it did; otherwise it changes nothing. */
  lemma NxAllOrNothing(db: Db, pairs: seq<(bytes, bytes)>, now: Time)
    requires WellFormed(db)
    ensures AllOrNothing(db, C.NxRun(db, pairs, now), pairs, now)
    ensures C.NxFree(db, pairs, now) <==> NoneLive(db, pairs, now)
  {
    hide View, WellFormed, Found, FromBytes, C.NxChecked, C.PutPlain;
    CheckedView(db, pairs, now);
    forall j | 0 <= j < |pairs|
      ensures Found(db, pairs[j].0, now).None? <==> pairs[j].0 !in View(db, now)
    {
      PurgedView(db, pairs[j].0, now);
    }
    if C.NxFree(db, pairs, now) {
      var checked := C.NxChecked(db, pairs, now);
      forall k
        ensures Peek(View(C.NxRun(db, pairs, now), now), k) ==
                match C.LastOf(pairs, k)
                case Some(data) => Some(Databases.Entry(FromBytes(data), None))
                case None => Peek(View(db, now), k)
      {
        PlainView(checked, pairs, now, k);
      }
    }
  }

  lemma {:induction false} RunWellFormed(db: Db, items: seq<Item>, now: Time)
    requires WellFormed(db)
    ensures WellFormed(KeyOps.Run(db, items, now))
    decreases |items|
  {
    hide FromBytes;
    if items != [] {
      RunWellFormed(Act(db, items[0], now), items[1..], now);
    }
  }

  lemma {:induction false} PlainWellFormed(db: Db, pairs: seq<(bytes, bytes)>)
    requires WellFormed(db)
    ensures WellFormed(C.PutPlain(db, pairs))
    decreases |pairs|
  {
    hide FromBytes;
    if pairs != [] {
      PlainWellFormed(db, pairs[..|pairs| - 1]);
    }
  }

  lemma PerformWellFormed(db: Db, t: Task, now: Time)
    requires WellFormed(db)
    ensures WellFormed(Perform(db, t, now))
  {
    match t
    case Keys(items) => RunWellFormed(db, items, now);
    case SetNx(pairs) =>
      CheckedView(db, pairs, now);
      PlainWellFormed(C.NxChecked(db, pairs, now), pairs);
    case Single(_, _) =>
    case Move(_, _) =>
    case Every(_, _) =>
  }

  lemma {:induction false} ReplayWellFormed(store: seq<Db>, log: seq<Executed>, i: nat)
    requires |store| == 16 && LogFits(log) && i < 16 && forall j :: 0 <= j < 16 ==> WellFormed(store[j])
    ensures WellFormed(Replay(store, log)[i])
    decreases |log|
  {
    hide WellFormed, Perform;
    if log != [] {
      var n := |log| - 1;
      ReplayWellFormed(store, log[..n], i);
      PerformWellFormed(Replay(store, log[..n])[i], log[n].msg.task, log[n].now);
    }
  }

  /**
   Entry `j` of the log, if it is an MSETNX, answered 1 exactly if none of its keys was live, and then set
   all of them; when it answered 0 it changed nothing.
   */
  ghost predicate NxAtomic(store: seq<Db>, log: seq<Executed>, j: nat)
    requires |store| == 16 && LogFits(log)
  {
    j < |log| && log[j].msg.task.SetNx? ==>
      var e := log[j];
      var before, after := Replay(store, log[..j])[e.msg.db], Replay(store, log[..j + 1])[e.msg.db];
      var pairs := e.msg.task.pairs;
      && e.outcome == Done(NoneLive(before, pairs, e.now))
      && (e.outcome == Done(true) ==> AllSet(before, after, pairs, e.now))
      && (e.outcome == Done(false) ==> View(after, e.now) == View(before, e.now))
  }

  lemma HonestNx(store: seq<Db>, log: seq<Executed>, j: nat)
    requires |store| == 16 && LogFits(log) && Honest(store, log) && forall i :: 0 <= i < 16 ==> WellFormed(store[i])
    ensures NxAtomic(store, log, j)
  {
    hide Replay, AllSet, NoneLive, View, WellFormed;
    if j < |log| && log[j].msg.task.SetNx? {
      var e := log[j];
      assert log[..j + 1] == log[..j] + [e];
      ReplayMore(store, log[..j], e);
      ReplayWellFormed(store, log[..j], e.msg.db);
      NxAllOrNothing(Replay(store, log[..j])[e.msg.db], e.msg.task.pairs, e.now);
    }
  }

  /**
   In every run from an empty server every MSETNX is atomic, seen on the union of all shards, however it
   was interleaved with other commands.
   */
  lemma EveryMSetNx(n: nat, events: seq<Event>, route: bytes -> nat, j: nat)
    requires n > 0 && Total(route, n)
    ensures var log := Play(Empty(n), events, route).log; LogFits(log) && NxAtomic(EMPTY_ROW, log, j)
  {
    hide Play, Replay, Honest, NxAtomic, LogFits;
    EmptyHonest(n, events, route);
    HonestNx(EMPTY_ROW, Play(Empty(n), events, route).log, j);
  }
}
