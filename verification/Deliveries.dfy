/** Nothing that was handed to the server is lost, doubled or sent to a wrong shard. */
module Deliveries {
  import opened Common
  import opened Databases
  import opened KeyOps
  import opened Scatter
  import opened ShardTasks
  import opened ShardSystem
  import R = RdbFiles

  // ---- What is in the system ----

  ghost function Logged(log: seq<Executed>): multiset<Message> {
    if log == [] then multiset{} else Logged(log[..|log| - 1]) + multiset{log[|log| - 1].msg}
  }

  ghost function Queued(queues: seq<seq<Message>>): multiset<Message> {
    if queues == [] then multiset{} else Queued(queues[..|queues| - 1]) + multiset(queues[|queues| - 1])
  }

  /** Sent, but not run yet. */
  ghost function Waiting(st: State): multiset<Message> { multiset(st.flight) + Queued(st.queues) }

  ghost function InSystem(st: State): multiset<Message> { Logged(st.log) + Waiting(st) }

  // ---- What a command asks for ----

  /** The parts of a command for the shards from `s` to `n` except `home`: one for each that has a key. */
  ghost function Parts(db: nat, items: seq<Item>, route: bytes -> nat, s: nat, n: nat, home: nat): set<Message> {
    set t | s <= t < n && t != home && Sub(items, route, t) != [] :: Message(t, db, Keys(Sub(items, route, t)))
  }

  ghost function EveryShare(db: nat, g: Global, route: bytes -> nat, s: nat, n: nat, home: nat): set<Message> {
    set t | s <= t < n && t != home :: Message(t, db, Every(g, OwnedBy(route, t)))
  }

  /** All tasks of a command, over `n` shards. */
  ghost function Shares(db: nat, cmd: Command, route: bytes -> nat, n: nat): multiset<Message> {
    match cmd
    case OneKey(k, f) => multiset{Message(route(k), db, Single(k, f))}
    case ManyKeys(items) => multiset(Parts(db, items, route, 0, n, n))
    case MSetNx(pairs) =>
      if pairs == [] || !SameShard(pairs, route) then multiset{} else multiset{Message(route(pairs[0].0), db, SetNx(pairs))}
    case Rename(from, to) => if route(from) != route(to) then multiset{} else multiset{Message(route(from), db, Move(from, to))}
    case AllShards(g) => multiset(EveryShare(db, g, route, 0, n, n))
  }

  function LoadMessages(s: nat, entries: seq<R.RdbEntry>): seq<Message> {
    seq(|entries|, j requires 0 <= j < |entries| => Message(s, entries[j].db, Single(entries[j].key, LoadEffect(entries[j]))))
  }

  /** What an event brings in. */
  ghost function Handed(st: State, e: Event, route: bytes -> nat): multiset<Message> {
    match e
    case Submit(home, db, cmd, now) => if home < |st.rows| && db < 16 then Shares(db, cmd, route, |st.rows|) else multiset{}
    case Deliver(_) => multiset{}
    case Work(_, _) => multiset{}
    case Sweep(s, db, keys, now) =>
      if s < |st.rows| && db < 16 && |st.rows[s]| == 16 && (forall k :: k in keys ==> k in st.rows[s][db].expire) then
        multiset{Message(s, db, Keys(Checks(keys)))}
      else multiset{}
    case Snapshot(_) => multiset{}
    case Load(s, entries, now) => if s < |st.rows| && Loadable(entries, route, s) then multiset(LoadMessages(s, entries)) else multiset{}
  }

  ghost function AllHanded(st: State, events: seq<Event>, route: bytes -> nat): multiset<Message>
    requires Shape(st) && Total(route, |st.rows|)
    decreases |events|
  {
    if events == [] then multiset{} else Handed(st, events[0], route) + AllHanded(Next(st, events[0], route), events[1..], route)
  }

  // ---- One step ----

  lemma LoggedMore(log: seq<Executed>, e: Executed)
    ensures Logged(log + [e]) == Logged(log) + multiset{e.msg}
  {
    assert (log + [e])[..|log|] == log;
  }

  lemma ExecAdds(st: State, m: Message, now: Time)
    requires Shape(st) && Fits(m, |st.rows|)
    ensures InSystem(Exec(st, m, now)) == InSystem(st) + multiset{m} && Waiting(Exec(st, m, now)) == Waiting(st)
  {
    hide Logged, Perform, OutcomeOf, Queued;
    var db := st.rows[m.shard][m.db];
    LoggedMore(st.log, Executed(m, now, OutcomeOf(db, m.task, now)));
  }

  lemma RouteAdds(st: State, home: nat, m: Message, now: Time)
    requires Shape(st) && Fits(m, |st.rows|)
    ensures InSystem(Route(st, home, m, now)) == InSystem(st) + multiset{m}
  {
    hide Exec, Logged, Queued;
    if m.shard == home {
      ExecAdds(st, m, now);
    }
  }

  lemma PartsNext(db: nat, items: seq<Item>, route: bytes -> nat, s: nat, n: nat, home: nat)
    requires s < n
    ensures var part, rest := Sub(items, route, s), Parts(db, items, route, s + 1, n, home);
            multiset(Parts(db, items, route, s, n, home)) ==
            multiset(rest) + if s == home || part == [] then multiset{} else multiset{Message(s, db, Keys(part))}
  {
    hide Sub;
    var part, rest, all := Sub(items, route, s), Parts(db, items, route, s + 1, n, home), Parts(db, items, route, s, n, home);
    var m := Message(s, db, Keys(part));
    assert m !in rest;
    if s == home || part == [] {
      assert all == rest;
    } else {
      assert all == rest + {m};
    }
  }

  lemma PartsDone(db: nat, items: seq<Item>, route: bytes -> nat, n: nat, home: nat)
    ensures multiset(Parts(db, items, route, n, n, home)) == multiset{}
  {
    assert Parts(db, items, route, n, n, home) == {};
  }

  /** These tasks were sent, and nothing else happened. */
  ghost predicate Sent(st: State, r: State, more: multiset<Message>) {
    && r.rows == st.rows && r.queues == st.queues && r.log == st.log && st.flight <= r.flight
    && multiset(r.flight) == multiset(st.flight) + more
  }

  lemma SentMore(st: State, home: nat, m: Message, now: Time, r: State, rest: multiset<Message>)
    requires Shape(st) && Fits(m, |st.rows|) && m.shard != home && Sent(Route(st, home, m, now), r, rest)
    ensures Sent(st, r, rest + multiset{m})
  {}

  /** The remote parts of a command: each is sent, once, and nothing else happens. */
  lemma {:induction false} PartsSent(st: State, home: nat, db: nat, items: seq<Item>, route: bytes -> nat, s: nat, now: Time)
    requires Shape(st) && s <= |st.rows| && db < 16
    ensures var r := RouteParts(st, home, db, items, route, s, now);
            Sent(st, r, multiset(Parts(db, items, route, s, |st.rows|, home)))
    decreases |st.rows| - s
  {
    hide Sub, Parts, Exec, Sent, Route;
    if s == |st.rows| {
      PartsDone(db, items, route, s, home);
      NoneSent(st);
    } else {
      PartsNext(db, items, route, s, |st.rows|, home);
      var part := Sub(items, route, s);
      if part == [] || s == home {
        assert multiset(Parts(db, items, route, s, |st.rows|, home)) == multiset(Parts(db, items, route, s + 1, |st.rows|, home));
        PartsSent(st, home, db, items, route, s + 1, now);
      } else {
        var m := Message(s, db, Keys(part));
        PartsSent(Route(st, home, m, now), home, db, items, route, s + 1, now);
        SentMore(st, home, m, now, RouteParts(st, home, db, items, route, s, now), multiset(Parts(db, items, route, s + 1, |st.rows|, home)));
      }
    }
  }

  lemma NoneSent(st: State)
    ensures Sent(st, st, multiset{})
  {}

  lemma HomePart(db: nat, items: seq<Item>, route: bytes -> nat, n: nat, home: nat)
    requires home < n
    ensures var part := Sub(items, route, home);
            multiset(Parts(db, items, route, 0, n, n)) ==
            multiset(Parts(db, items, route, 0, n, home)) + if part == [] then multiset{} else multiset{Message(home, db, Keys(part))}
  {
    hide Sub;
    var part, m := Sub(items, route, home), Message(home, db, Keys(Sub(items, route, home)));
    var all, rest := Parts(db, items, route, 0, n, n), Parts(db, items, route, 0, n, home);
    assert m !in rest;
    if part == [] {
      assert all == rest;
    } else {
      assert all == rest + {m};
    }
  }

  lemma ShareNext(db: nat, g: Global, route: bytes -> nat, s: nat, n: nat, home: nat)
    requires s < n
    ensures multiset(EveryShare(db, g, route, s, n, home)) ==
            multiset(EveryShare(db, g, route, s + 1, n, home)) + if s == home then multiset{} else multiset{Message(s, db, Every(g, OwnedBy(route, s)))}
  {
    hide OwnedBy;
    var m, rest, all := Message(s, db, Every(g, OwnedBy(route, s))), EveryShare(db, g, route, s + 1, n, home), EveryShare(db, g, route, s, n, home);
    assert m !in rest;
    if s == home {
      assert all == rest;
    } else {
      assert all == rest + {m};
    }
  }

  lemma HomeShare(db: nat, g: Global, route: bytes -> nat, n: nat, home: nat)
    requires home < n
    ensures multiset(EveryShare(db, g, route, 0, n, n)) ==
            multiset(EveryShare(db, g, route, 0, n, home)) + multiset{Message(home, db, Every(g, OwnedBy(route, home)))}
  {
    hide OwnedBy;
    var m := Message(home, db, Every(g, OwnedBy(route, home)));
    var all, rest := EveryShare(db, g, route, 0, n, n), EveryShare(db, g, route, 0, n, home);
    assert m !in rest && all == rest + {m};
  }

  /** The shares of the other shards of a global command. */
  lemma {:induction false} SharesSent(st: State, home: nat, db: nat, g: Global, route: bytes -> nat, s: nat, now: Time)
    requires Shape(st) && s <= |st.rows| && db < 16
    ensures var r := RouteAll(st, home, db, g, route, s, now);
            Sent(st, r, multiset(EveryShare(db, g, route, s, |st.rows|, home)))
    decreases |st.rows| - s
  {
    hide EveryShare, Exec, OwnedBy, Sent, Route;
    if s == |st.rows| {
      NoShare(db, g, route, s, home);
      assert multiset(EveryShare(db, g, route, s, s, home)) == multiset{};
      NoneSent(st);
    } else {
      ShareNext(db, g, route, s, |st.rows|, home);
      if s == home {
        assert multiset(EveryShare(db, g, route, s, |st.rows|, home)) == multiset(EveryShare(db, g, route, s + 1, |st.rows|, home));
        SharesSent(st, home, db, g, route, s + 1, now);
      } else {
        var m := Message(s, db, Every(g, OwnedBy(route, s)));
        SharesSent(Route(st, home, m, now), home, db, g, route, s + 1, now);
        SentMore(st, home, m, now, RouteAll(st, home, db, g, route, s, now), multiset(EveryShare(db, g, route, s + 1, |st.rows|, home)));
      }
    }
  }

  lemma NoShare(db: nat, g: Global, route: bytes -> nat, n: nat, home: nat)
    ensures EveryShare(db, g, route, n, n, home) == {}
  {}

  /** Only the flight grew. */
  lemma FlightGrows(st: State, r: State, more: multiset<Message>)
    requires r.queues == st.queues && r.log == st.log && multiset(r.flight) == multiset(st.flight) + more
    ensures InSystem(r) == InSystem(st) + more
  {
    hide Logged, Queued;
  }

  /** The own part is run at once, the others are sent. */
  lemma ManyKeysAdd(st: State, home: nat, db: nat, items: seq<Item>, route: bytes -> nat, now: Time)
    requires Shape(st) && home < |st.rows| && db < 16 && Total(route, |st.rows|)
    ensures InSystem(SubmitCommand(st, home, db, ManyKeys(items), route, now)) == InSystem(st) + Shares(db, ManyKeys(items), route, |st.rows|)
  {
    hide Exec, Route, RouteParts, Sub, Parts, InSystem;
    var part, rest := Sub(items, route, home), multiset(Parts(db, items, route, 0, |st.rows|, home));
    HomePart(db, items, route, |st.rows|, home);
    var m := Message(home, db, Keys(part));
    var st' := if part == [] then st else Exec(st, m, now);
    if part != [] {
      ExecAdds(st, m, now);
    }
    PartsSent(st', home, db, items, route, 0, now);
    FlightGrows(st', RouteParts(st', home, db, items, route, 0, now), rest);
  }

  lemma AllShardsAdd(st: State, home: nat, db: nat, g: Global, route: bytes -> nat, now: Time)
    requires Shape(st) && home < |st.rows| && db < 16 && Total(route, |st.rows|)
    ensures InSystem(SubmitCommand(st, home, db, AllShards(g), route, now)) == InSystem(st) + Shares(db, AllShards(g), route, |st.rows|)
  {
    hide Exec, RouteAll, EveryShare, OwnedBy, InSystem;
    var m, rest := Message(home, db, Every(g, OwnedBy(route, home))), multiset(EveryShare(db, g, route, 0, |st.rows|, home));
    HomeShare(db, g, route, |st.rows|, home);
    var st' := Exec(st, m, now);
    ExecAdds(st, m, now);
    SharesSent(st', home, db, g, route, 0, now);
    FlightGrows(st', RouteAll(st', home, db, g, route, 0, now), rest);
  }

  /** Submitting a command brings in exactly its tasks. */
  lemma SubmitAdds(st: State, home: nat, db: nat, cmd: Command, route: bytes -> nat, now: Time)
    requires Shape(st) && home < |st.rows| && db < 16 && Total(route, |st.rows|)
    ensures InSystem(SubmitCommand(st, home, db, cmd, route, now)) == InSystem(st) + Shares(db, cmd, route, |st.rows|)
  {
    hide Exec, Route, RouteParts, RouteAll, Sub, Parts, EveryShare, OwnedBy, InSystem;
    match cmd
    case OneKey(k, f) => RouteAdds(st, home, Message(route(k), db, Single(k, f)), now);
    case ManyKeys(items) =>
      ManyKeysAdd(st, home, db, items, route, now);
    case MSetNx(pairs) =>
      if pairs != [] && SameShard(pairs, route) {
        RouteAdds(st, home, Message(route(pairs[0].0), db, SetNx(pairs)), now);
      }
    case Rename(from, to) =>
      if route(from) == route(to) {
        RouteAdds(st, home, Message(route(from), db, Move(from, to)), now);
      }
    case AllShards(g) => AllShardsAdd(st, home, db, g, route, now);
  }

  lemma {:induction false} QueuedUpdate(queues: seq<seq<Message>>, s: nat, q: seq<Message>)
    requires s < |queues|
    ensures Queued(queues[s := q]) + multiset(queues[s]) == Queued(queues) + multiset(q)
    decreases |queues|
  {
    var n := |queues| - 1;
    if s == n {
      assert queues[s := q][..n] == queues[..n];
    } else {
      var front := queues[..n];
      assert queues[s := q][..n] == front[s := q] && front[s] == queues[s] && queues[s := q][n] == queues[n];
      QueuedUpdate(front, s, q);
      var a, b, c, d, e := Queued(front[s := q]), multiset(queues[n]), multiset(queues[s]), Queued(front), multiset(q);
      assert a + b + c == (a + c) + b == (d + e) + b == d + b + e;
    }
  }

  lemma Cancel(a: multiset<Message>, b: multiset<Message>, c: multiset<Message>, d: multiset<Message>)
    requires a + b == c + (b + d)
    ensures a == c + d
  {
    forall m
      ensures a[m] == (c + d)[m]
    {
      assert (a + b)[m] == (c + (b + d))[m];
    }
  }

  lemma Enqueued(queues: seq<seq<Message>>, s: nat, m: Message)
    requires s < |queues|
    ensures Queued(queues[s := queues[s] + [m]]) == Queued(queues) + multiset{m}
  {
    hide Queued;
    var q := queues[s];
    QueuedUpdate(queues, s, q + [m]);
    assert multiset(q + [m]) == multiset(q) + multiset{m};
    Cancel(Queued(queues[s := q + [m]]), multiset(q), Queued(queues), multiset{m});
  }

  lemma TakenOut(ms: seq<Message>, j: nat)
    requires j < |ms|
    ensures multiset(ms) == multiset(ms[..j] + ms[j + 1..]) + multiset{ms[j]}
  {
    assert ms == ms[..j] + [ms[j]] + ms[j + 1..];
  }

  /** A delivery moves a task from the flight to a queue. */
  lemma DeliverMoves(st: State, j: nat, route: bytes -> nat)
    requires Shape(st) && Total(route, |st.rows|)
    ensures var r := Next(st, Deliver(j), route); Waiting(r) == Waiting(st) && r.log == st.log && r.rows == st.rows
  {
    hide Queued;
    if j < |st.flight| && st.flight[j].shard < |st.queues| {
      var m := st.flight[j];
      Enqueued(st.queues, m.shard, m);
      TakenOut(st.flight, j);
    }
  }

  /** A shard that takes a task from its queue runs it. */
  lemma WorkMoves(st: State, s: nat, now: Time, route: bytes -> nat)
    requires Shape(st) && Total(route, |st.rows|) && s < |st.queues| && st.queues[s] != [] && Fits(st.queues[s][0], |st.rows|)
    ensures var m, r := st.queues[s][0], Next(st, Work(s, now), route);
            && Waiting(r) + multiset{m} == Waiting(st) && InSystem(r) == InSystem(st)
            && r.rows == st.rows[m.shard := st.rows[m.shard][m.db := Perform(st.rows[m.shard][m.db], m.task, now)]]
            && r.log == st.log + [Executed(m, now, OutcomeOf(st.rows[m.shard][m.db], m.task, now))]
  {
    hide Queued, Logged, Perform, OutcomeOf;
    var m := st.queues[s][0];
    var st' := st.(queues := st.queues[s := st.queues[s][1..]]);
    var rest := st.queues[s][1..];
    QueuedUpdate(st.queues, s, rest);
    assert st.queues[s] == [m] + rest && multiset(st.queues[s]) == multiset{m} + multiset(rest);
    var q, q' := Queued(st.queues), Queued(st'.queues);
    assert q + multiset(rest) == q' + (multiset(rest) + multiset{m});
    Cancel(q, multiset(rest), q', multiset{m});
    ExecAdds(st', m, now);
    WaitingLess(st, st', m);
  }

  lemma WaitingLess(st: State, st': State, m: Message)
    requires st'.log == st.log && st'.flight == st.flight && Queued(st.queues) == Queued(st'.queues) + multiset{m}
    ensures Waiting(st) == Waiting(st') + multiset{m} && InSystem(st) == InSystem(st') + multiset{m}
  {
    hide Logged, Queued;
  }

  lemma {:induction false} LoadAdds(st: State, s: nat, entries: seq<R.RdbEntry>, now: Time)
    requires Shape(st) && s < |st.rows| && InRange(entries)
    ensures InSystem(LoadInto(st, s, entries, now)) == InSystem(st) + multiset(LoadMessages(s, entries))
    decreases |entries|
  {
    hide InSystem, Exec, LoadEffect;
    if entries != [] {
      var e := entries[0];
      var m := Message(s, e.db, Single(e.key, LoadEffect(e)));
      ExecAdds(st, m, now);
      LoadAdds(Exec(st, m, now), s, entries[1..], now);
      assert LoadMessages(s, entries) == [m] + LoadMessages(s, entries[1..]);
    }
  }

  /** No step loses or doubles a task. */
  lemma NextConserves(st: State, e: Event, route: bytes -> nat)
    requires Shape(st) && Total(route, |st.rows|)
    ensures InSystem(Next(st, e, route)) == InSystem(st) + Handed(st, e, route)
  {
    hide InSystem, Exec, SubmitCommand, LoadInto, Shares, LoadMessages;
    match e
    case Submit(home, db, cmd, now) =>
      if home < |st.rows| && db < 16 {
        SubmitAdds(st, home, db, cmd, route, now);
      }
    case Deliver(j) => DeliverConserves(st, j, route);
    case Work(s, now) =>
      if s < |st.queues| && st.queues[s] != [] && Fits(st.queues[s][0], |st.rows|) {
        WorkMoves(st, s, now, route);
      }
    case Sweep(s, db, keys, now) =>
      if s < |st.rows| && db < 16 && (forall k :: k in keys ==> k in st.rows[s][db].expire) {
        ExecAdds(st, Message(s, db, Keys(Checks(keys))), now);
      }
    case Snapshot(_) =>
    case Load(s, entries, now) =>
      if s < |st.rows| && Loadable(entries, route, s) {
        LoadAdds(st, s, entries, now);
      }
  }

  lemma DeliverConserves(st: State, j: nat, route: bytes -> nat)
    requires Shape(st) && Total(route, |st.rows|)
    ensures InSystem(Next(st, Deliver(j), route)) == InSystem(st)
  {
    hide Next, Waiting, Logged;
    DeliverMoves(st, j, route);
  }

  /** Over every run: what was handed in has been run or is still waiting, each task as often as it was handed in. */
  lemma {:induction false} RunConserves(st: State, events: seq<Event>, route: bytes -> nat)
    requires Shape(st) && Total(route, |st.rows|)
    ensures InSystem(Play(st, events, route)) == InSystem(st) + AllHanded(st, events, route)
    decreases |events|
  {
    hide InSystem, Next, Handed;
    if events != [] {
      NextConserves(st, events[0], route);
      RunConserves(Next(st, events[0], route), events[1..], route);
    }
  }

  // ---- Every argument travels once ----

  ghost predicate Increasing(ps: seq<int>) { forall i, j :: 0 <= i < j < |ps| ==> ps[i] < ps[j] }

  /** `ps` lists the positions of shard `s` in ascending order, and the part has the items that stand there. */
  ghost predicate PartAt(part: seq<Item>, items: seq<Item>, route: bytes -> nat, s: nat, ps: seq<int>) {
    && Increasing(ps) && |ps| == |part|
    && (forall p :: p in ps <==> 0 <= p < |items| && route(items[p].key) == s)
    && (forall j :: 0 <= j < |ps| ==> 0 <= ps[j] < |items| && part[j] == items[ps[j]])
  }

  /** The part has the items of shard `s`, all of them, in the order of the arguments. */
  ghost predicate InArgumentOrder(part: seq<Item>, items: seq<Item>, route: bytes -> nat, s: nat) {
    exists ps :: PartAt(part, items, route, s, ps)
  }

  ghost predicate Placed(ps: seq<int>, part: seq<Item>, items: seq<Item>, from: nat) {
    && |ps| == |part| && Increasing(ps)
    && forall j :: 0 <= j < |ps| ==> from <= ps[j] < from + |items| && part[j] == items[ps[j] - from]
  }

  lemma PlacedLater(ps: seq<int>, part: seq<Item>, items: seq<Item>, from: nat)
    requires items != [] && Placed(ps, part, items[1..], from + 1)
    ensures Placed(ps, part, items, from) && Placed([from] + ps, [items[0]] + part, items, from)
  {
    assert forall j :: 0 <= j < |ps| ==> items[1..][ps[j] - from - 1] == items[ps[j] - from];
  }

  lemma {:induction false} SubPlaced(items: seq<Item>, route: bytes -> nat, s: nat, from: nat)
    ensures Placed(Places(items, route, s, from), Sub(items, route, s), items, from)
    decreases |items|
  {
    if items != [] {
      hide Placed;
      SubPlaced(items[1..], route, s, from + 1);
      var ps, part := Places(items[1..], route, s, from + 1), Sub(items[1..], route, s);
      PlacedLater(ps, part, items, from);
      assert [] + ps == ps && [] + part == part;
    }
  }

  lemma SubInOrder(items: seq<Item>, route: bytes -> nat, s: nat)
    ensures InArgumentOrder(Sub(items, route, s), items, route, s)
  {
    hide Sub, Places;
    var ps := Places(items, route, s, 0);
    SubPlaced(items, route, s, 0);
    forall p
      ensures p in ps <==> 0 <= p < |items| && route(items[p].key) == s
    {
      PlaceOf(items, route, s, 0, p);
    }
    assert PartAt(Sub(items, route, s), items, route, s, ps);
  }

  /** Exactly one message goes to the shard of argument `p`, and it carries what belongs there. */
  ghost predicate CarriedOnce(tasks: multiset<Message>, db: nat, items: seq<Item>, route: bytes -> nat, p: nat)
    requires p < |items|
  {
    exists m :: Carrier(tasks, db, items, route, p, m)
  }

  ghost predicate Carrier(tasks: multiset<Message>, db: nat, items: seq<Item>, route: bytes -> nat, p: nat, m: Message)
    requires p < |items|
  {
    && tasks[m] == 1 && m.db == db && m.shard == route(items[p].key)
    && m.task.Keys? && InArgumentOrder(m.task.items, items, route, m.shard)
    && forall m' :: m' in tasks && m'.shard == m.shard ==> m' == m
  }

  /**
   Submitting a command on several keys brings in tasks of which exactly one goes to the shard of each argument,
   with all arguments of that shard in order; and no task without arguments.
   */
  lemma SubmitCarries(st: State, home: nat, db: nat, items: seq<Item>, route: bytes -> nat, now: Time)
    returns (tasks: multiset<Message>)
    requires Shape(st) && home < |st.rows| && db < 16 && Total(route, |st.rows|)
    ensures InSystem(Next(st, Submit(home, db, ManyKeys(items), now), route)) == InSystem(st) + tasks
    ensures forall p: nat :: p < |items| ==> CarriedOnce(tasks, db, items, route, p)
    ensures forall m :: m in tasks ==> m.task.Keys? && m.task.items != []
  {
    hide SubmitCommand, InSystem;
    SubmitAdds(st, home, db, ManyKeys(items), route, now);
    tasks := Shares(db, ManyKeys(items), route, |st.rows|);
    forall p: nat | p < |items|
      ensures CarriedOnce(tasks, db, items, route, p)
    {
      ShareOf(db, items, route, |st.rows|, p);
    }
  }

  lemma ShareOf(db: nat, items: seq<Item>, route: bytes -> nat, n: nat, p: nat)
    requires p < |items| && Total(route, n)
    ensures CarriedOnce(multiset(Parts(db, items, route, 0, n, n)), db, items, route, p)
  {
    hide Sub, InArgumentOrder;
    var s := route(items[p].key);
    SubInOrder(items, route, s);
    assert Sub(items, route, s) != [] by { HasPart(items, route, p); }
    var m := Message(s, db, Keys(Sub(items, route, s)));
    assert m in Parts(db, items, route, 0, n, n);
    assert Carrier(multiset(Parts(db, items, route, 0, n, n)), db, items, route, p, m);
  }

  // ---- Once nothing is waiting ----

  ghost predicate Quiet(st: State) { Waiting(st) == multiset{} }

  /** What a shard is sent of a command, and what is left of the waiting tasks when some have been run. */
  ghost predicate InProgress(rows0: seq<seq<Db>>, st: State, db: nat, items: seq<Item>, route: bytes -> nat, now: Time) {
    && Shape(st) && Wide(rows0) && |rows0| == |st.rows| && db < 16
    && (forall m :: m in Waiting(st) ==> Waiting(st)[m] == 1 && m in Parts(db, items, route, 0, |st.rows|, |st.rows|))
    && (forall s :: 0 <= s < |st.rows| ==> ShardDone(rows0[s], st.rows[s], db, items, route, s, now, Message(s, db, Keys(Sub(items, route, s))) in Waiting(st)))
    && (forall s :: 0 <= s < |st.rows| && Sub(items, route, s) != [] ==>
          Message(s, db, Keys(Sub(items, route, s))) in Waiting(st) || PartAnswer(rows0[s], db, items, route, s, now) in st.log)
  }

  /** What the log says when a shard has run its part. */
  ghost function PartAnswer(before: seq<Db>, db: nat, items: seq<Item>, route: bytes -> nat, s: nat, now: Time): Executed
    requires |before| == 16 && db < 16
  {
    var part := Sub(items, route, s);
    Executed(Message(s, db, Keys(part)), now, Answered(Answers(before[db], part, now)))
  }

  /** One shard: its part is waiting and nothing has happened, or it has been run. */
  ghost predicate ShardDone(before: seq<Db>, after: seq<Db>, db: nat, items: seq<Item>, route: bytes -> nat, s: nat,
                            now: Time, waits: bool)
    requires |before| == 16 && db < 16
  {
    after == if waits then before else before[db := KeyOps.Run(before[db], Sub(items, route, s), now)]
  }

  /** Deliveries, and shards at work at one time. */
  ghost predicate AtWork(e: Event, now: Time) { e.Deliver? || (e.Work? && e.now == now) }

  lemma InProgressStep(rows0: seq<seq<Db>>, st: State, e: Event, db: nat, items: seq<Item>, route: bytes -> nat, now: Time)
    requires InProgress(rows0, st, db, items, route, now) && AtWork(e, now) && Total(route, |st.rows|)
    ensures InProgress(rows0, Next(st, e, route), db, items, route, now)
  {
    match e
    case Deliver(j) =>
      hide Waiting, Next, ShardDone, Parts;
      DeliverMoves(st, j, route);
    case Work(s, _) =>
      if s < |st.queues| && st.queues[s] != [] && Fits(st.queues[s][0], |st.rows|) {
        WorkInProgress(rows0, st, s, db, items, route, now);
      }
  }

  lemma WorkInProgress(rows0: seq<seq<Db>>, st: State, s: nat, db: nat, items: seq<Item>, route: bytes -> nat, now: Time)
    requires InProgress(rows0, st, db, items, route, now) && Total(route, |st.rows|)
    requires s < |st.queues| && st.queues[s] != [] && Fits(st.queues[s][0], |st.rows|)
    ensures InProgress(rows0, Next(st, Work(s, now), route), db, items, route, now)
  {
    hide Waiting, Next, Sub;
    var m, r := st.queues[s][0], Next(st, Work(s, now), route);
    WorkMoves(st, s, now, route);
    assert m in Waiting(st);
    var part := Sub(items, route, m.shard);
    assert m == Message(m.shard, db, Keys(part));
    assert Waiting(r)[m] == 0 by { assert (Waiting(r) + multiset{m})[m] == 1; }
    assert forall m' :: m' != m ==> Waiting(r)[m'] == (Waiting(r) + multiset{m})[m'] == Waiting(st)[m'];
    forall t | 0 <= t < |st.rows|
      ensures ShardDone(rows0[t], r.rows[t], db, items, route, t, now, Message(t, db, Keys(Sub(items, route, t))) in Waiting(r))
    {
      assert ShardDone(rows0[t], st.rows[t], db, items, route, t, now, Message(t, db, Keys(Sub(items, route, t))) in Waiting(st));
      if t == m.shard {
        assert st.rows[t] == rows0[t];
        assert Perform(rows0[t][db], m.task, now) == KeyOps.Run(rows0[t][db], part, now);
      }
    }
    assert rows0[m.shard] == st.rows[m.shard] by {
      assert ShardDone(rows0[m.shard], st.rows[m.shard], db, items, route, m.shard, now, m in Waiting(st));
    }
    assert PartAnswer(rows0[m.shard], db, items, route, m.shard, now) == r.log[|st.log|];
    assert forall x :: x in st.log ==> x in r.log;
  }

  lemma {:induction false} InProgressRun(rows0: seq<seq<Db>>, st: State, events: seq<Event>, db: nat, items: seq<Item>,
                                         route: bytes -> nat, now: Time)
    requires InProgress(rows0, st, db, items, route, now) && Total(route, |st.rows|)
    requires forall i :: 0 <= i < |events| ==> AtWork(events[i], now)
    ensures InProgress(rows0, Play(st, events, route), db, items, route, now)
    decreases |events|
  {
    hide InProgress, Next, AtWork;
    if events != [] {
      assert Shape(st) && AtWork(events[0], now) by { InProgressShape(rows0, st, db, items, route, now); }
      InProgressStep(rows0, st, events[0], db, items, route, now);
      InProgressRun(rows0, Next(st, events[0], route), events[1..], db, items, route, now);
    }
  }

  lemma InProgressShape(rows0: seq<seq<Db>>, st: State, db: nat, items: seq<Item>, route: bytes -> nat, now: Time)
    requires InProgress(rows0, st, db, items, route, now)
    ensures Shape(st)
  {}

  lemma WaitingGrows(st: State, r: State, more: multiset<Message>)
    requires Quiet(st) && r.queues == st.queues && multiset(r.flight) == multiset(st.flight) + more
    ensures Waiting(r) == more
  {
    hide Queued;
    assert multiset(st.flight) == multiset{} && Queued(st.queues) == multiset{} by { BothEmpty(multiset(st.flight), Queued(st.queues)); }
  }

  lemma BothEmpty(a: multiset<Message>, b: multiset<Message>)
    requires a + b == multiset{}
    ensures a == multiset{} && b == multiset{}
  {
    assert forall m :: (a + b)[m] == 0;
  }

  /** The own part has been run, the others are waiting. */
  lemma Submitted(st: State, home: nat, db: nat, items: seq<Item>, route: bytes -> nat, now: Time)
    requires Shape(st) && Quiet(st) && home < |st.rows| && db < 16 && Total(route, |st.rows|)
    ensures var r, part := Next(st, Submit(home, db, ManyKeys(items), now), route), Sub(items, route, home);
            && Waiting(r) == multiset(Parts(db, items, route, 0, |st.rows|, home))
            && (part != [] ==> r.log == st.log + [PartAnswer(st.rows[home], db, items, route, home, now)])
            && r.rows == if part == [] then st.rows else st.rows[home := st.rows[home][db := KeyOps.Run(st.rows[home][db], part, now)]]
  {
    hide Sub, RouteParts, Parts, Waiting, Logged;
    var part := Sub(items, route, home);
    var m := Message(home, db, Keys(part));
    var st' := if part == [] then st else Exec(st, m, now);
    if part != [] {
      ExecAdds(st, m, now);
    }
    PartsSent(st', home, db, items, route, 0, now);
    WaitingGrows(st', RouteParts(st', home, db, items, route, 0, now), multiset(Parts(db, items, route, 0, |st.rows|, home)));
  }

  /** Right after the command was submitted. */
  lemma InProgressFirst(st: State, home: nat, db: nat, items: seq<Item>, route: bytes -> nat, now: Time)
    requires Shape(st) && Quiet(st) && home < |st.rows| && db < 16 && Total(route, |st.rows|)
    ensures InProgress(st.rows, Next(st, Submit(home, db, ManyKeys(items), now), route), db, items, route, now)
  {
    hide Sub, Next, Waiting, KeyOps.Run;
    var n, r := |st.rows|, Next(st, Submit(home, db, ManyKeys(items), now), route);
    Submitted(st, home, db, items, route, now);
    var sent := Parts(db, items, route, 0, n, home);
    forall t | 0 <= t < n
      ensures ShardDone(st.rows[t], r.rows[t], db, items, route, t, now, Message(t, db, Keys(Sub(items, route, t))) in Waiting(r))
    {
      var mine := Message(t, db, Keys(Sub(items, route, t)));
      assert mine in sent <==> t != home && Sub(items, route, t) != [];
      if Sub(items, route, t) == [] {
        NothingToRun(st.rows[t], db, items, route, t, now);
      }
    }
  }

  lemma NothingToRun(row: seq<Db>, db: nat, items: seq<Item>, route: bytes -> nat, s: nat, now: Time)
    requires |row| == 16 && db < 16 && Sub(items, route, s) == []
    ensures row[db := KeyOps.Run(row[db], Sub(items, route, s), now)] == row
  {}

  /** A shard has run its part, once, and answered for it. */
  ghost predicate PartRun(before: seq<Db>, after: seq<Db>, log: seq<Executed>, db: nat, items: seq<Item>,
                          route: bytes -> nat, s: nat, now: Time)
    requires |before| == 16 && db < 16
  {
    && after == before[db := KeyOps.Run(before[db], Sub(items, route, s), now)]
    && (Sub(items, route, s) != [] ==> PartAnswer(before, db, items, route, s, now) in log)
  }

  /** When nothing is waiting any more, every shard has. */
  lemma EveryPartRun(rows0: seq<seq<Db>>, st: State, db: nat, items: seq<Item>, route: bytes -> nat, now: Time, s: nat)
    requires InProgress(rows0, st, db, items, route, now) && Quiet(st) && s < |st.rows|
    ensures PartRun(rows0[s], st.rows[s], st.log, db, items, route, s, now)
  {
    hide Sub, Waiting;
    assert ShardDone(rows0[s], st.rows[s], db, items, route, s, now, Message(s, db, Keys(Sub(items, route, s))) in Waiting(st));
  }

  ghost predicate PartsRun(before: seq<seq<Db>>, r: State, db: nat, items: seq<Item>, route: bytes -> nat, now: Time) {
    && Wide(before) && Shape(r) && |r.rows| == |before| && db < 16
    && forall s :: 0 <= s < |before| ==> PartRun(before[s], r.rows[s], r.log, db, items, route, s, now)
  }

  lemma AllPartsRun(rows0: seq<seq<Db>>, st: State, db: nat, items: seq<Item>, route: bytes -> nat, now: Time)
    requires InProgress(rows0, st, db, items, route, now) && Quiet(st)
    ensures PartsRun(rows0, st, db, items, route, now)
  {
    hide PartRun, Quiet, Waiting;
    forall s | 0 <= s < |rows0|
      ensures PartRun(rows0[s], st.rows[s], st.log, db, items, route, s, now)
    {
      EveryPartRun(rows0, st, db, items, route, now, s);
    }
  }

  lemma Completed(st: State, home: nat, db: nat, items: seq<Item>, events: seq<Event>, route: bytes -> nat, now: Time)
    requires Shape(st) && Total(route, |st.rows|) && home < |st.rows| && db < 16
    requires Quiet(st) && Quiet(Play(Next(st, Submit(home, db, ManyKeys(items), now), route), events, route))
    requires forall i :: 0 <= i < |events| ==> AtWork(events[i], now)
    ensures PartsRun(st.rows, Play(Next(st, Submit(home, db, ManyKeys(items), now), route), events, route), db, items, route, now)
  {
    hide Next, Play, InProgress, Quiet, AtWork, PartsRun, Shape, Wide;
    var st' := Next(st, Submit(home, db, ManyKeys(items), now), route);
    InProgressFirst(st, home, db, items, route, now);
    InProgressRun(st.rows, st', events, db, items, route, now);
    AllPartsRun(st.rows, Play(st', events, route), db, items, route, now);
  }
}
