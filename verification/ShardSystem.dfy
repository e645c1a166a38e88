/** Connections, queues and shards as one step system. */
module ShardSystem {
  import opened Common
  import opened Databases
  import opened KeyOps
  import opened Scatter
  import opened ShardTasks
  import E = EagerCommands
  import R = RdbFiles

  datatype Message = Message(shard: nat, db: nat, task: Task)

  /** A task that a shard has run, when, and what it answered. */
  datatype Executed = Executed(msg: Message, now: Time, outcome: Outcome)

  /** `flight` holds tasks on their way to a queue; `log` is what has been run so far, in order. */
  datatype State = State(rows: seq<seq<Db>>, flight: seq<Message>, queues: seq<seq<Message>>, log: seq<Executed>)

  datatype Command =
    | OneKey(key: bytes, effect: Effect)
    | ManyKeys(items: seq<Item>)
    | MSetNx(pairs: seq<(bytes, bytes)>)
    | Rename(source: bytes, target: bytes)
    | AllShards(global: Global)

  /**
   A connection on shard `home` hands in a command; a task in flight reaches its queue; a shard takes
   the next task of its queue; a shard sweeps keys of its own expiry table; a shard is asked for a
   snapshot; a shard loads entries of a dump that were sent to it.
   */
  datatype Event =
    | Submit(home: nat, db: nat, cmd: Command, now: Time)
    | Deliver(index: nat)
    | Work(shard: nat, now: Time)
    | Sweep(shard: nat, db: nat, keys: seq<bytes>, now: Time)
    | Snapshot(shard: nat)
    | Load(shard: nat, entries: seq<R.RdbEntry>, now: Time)

  ghost predicate Shape(st: State) { Wide(st.rows) && |st.queues| == |st.rows| }

  predicate Fits(m: Message, n: nat) { m.shard < n && m.db < 16 }

  /** A shard runs a task: no other shard changes, and nothing comes between. */
  function Exec(st: State, m: Message, now: Time): (r: State)
    requires Shape(st) && Fits(m, |st.rows|)
    ensures Shape(r) && |r.rows| == |st.rows|
  {
    var db := st.rows[m.shard][m.db];
    st.(rows := st.rows[m.shard := st.rows[m.shard][m.db := Perform(db, m.task, now)]],
        log := st.log + [Executed(m, now, OutcomeOf(db, m.task, now))])
  }

  /** On its own shard a task runs at once; otherwise it is sent. */
  function Route(st: State, home: nat, m: Message, now: Time): (r: State)
    requires Shape(st) && Fits(m, |st.rows|)
    ensures Shape(r) && |r.rows| == |st.rows|
  {
    if m.shard == home then Exec(st, m, now) else st.(flight := st.flight + [m])
  }

  /** The parts of a command for the shards from `s` on, those with nothing to do left out. */
  function RouteParts(st: State, home: nat, db: nat, items: seq<Item>, route: bytes -> nat, s: nat, now: Time): (r: State)
    requires Shape(st) && s <= |st.rows| && db < 16
    ensures Shape(r) && |r.rows| == |st.rows|
    decreases |st.rows| - s
  {
    if s == |st.rows| then st
    else
      var part := Sub(items, route, s);
      var st' := if part == [] || s == home then st else Route(st, home, Message(s, db, Keys(part)), now);
      RouteParts(st', home, db, items, route, s + 1, now)
  }

  function OwnedBy(route: bytes -> nat, s: nat): bytes -> bool { k => route(k) == s }

  /** A global command goes to every shard but the one that has run it already. */
  function RouteAll(st: State, home: nat, db: nat, g: Global, route: bytes -> nat, s: nat, now: Time): (r: State)
    requires Shape(st) && s <= |st.rows| && db < 16
    ensures Shape(r) && |r.rows| == |st.rows|
    decreases |st.rows| - s
  {
    if s == |st.rows| then st
    else
      var st' := if s == home then st else Route(st, home, Message(s, db, Every(g, OwnedBy(route, s))), now);
      RouteAll(st', home, db, g, route, s + 1, now)
  }

  /** All keys of an MSETNX must belong to one shard. */
  predicate SameShard(pairs: seq<(bytes, bytes)>, route: bytes -> nat) {
    forall j :: 0 < j < |pairs| ==> route(pairs[j].0) == route(pairs[0].0)
  }

  function SubmitCommand(st: State, home: nat, db: nat, cmd: Command, route: bytes -> nat, now: Time): (r: State)
    requires Shape(st) && home < |st.rows| && db < 16 && Total(route, |st.rows|)
    ensures Shape(r) && |r.rows| == |st.rows|
  {
    match cmd
    case OneKey(k, f) => Route(st, home, Message(route(k), db, Single(k, f)), now)
    case ManyKeys(items) =>
      var part := Sub(items, route, home);
      var st' := if part == [] then st else Exec(st, Message(home, db, Keys(part)), now);
      RouteParts(st', home, db, items, route, 0, now)
    case MSetNx(pairs) =>
      if pairs == [] || !SameShard(pairs, route) then st
      else Route(st, home, Message(route(pairs[0].0), db, SetNx(pairs)), now)
    case Rename(from, to) =>
      if route(from) != route(to) then st else Route(st, home, Message(route(from), db, Move(from, to)), now)
    case AllShards(g) =>
      var st' := Exec(st, Message(home, db, Every(g, OwnedBy(route, home))), now);
      RouteAll(st', home, db, g, route, 0, now)
  }

  /** What loading does to the cell of a key: an entry past its deadline is skipped. */
  function LoadEffect(e: R.RdbEntry): Effect {
    (c: Cell, now: Time) =>
      (if e.expire.Some? && e.expire.value <= now then c
       else Cell(Some(e.value), if e.expire.Some? then e.expire else c.deadline), E.Okay)
  }

  predicate InRange(entries: seq<R.RdbEntry>) { forall j :: 0 <= j < |entries| ==> entries[j].db < 16 }

  /** Entries of a dump that belong to shard `s`. */
  predicate Loadable(entries: seq<R.RdbEntry>, route: bytes -> nat, s: nat) {
    InRange(entries) && forall j :: 0 <= j < |entries| ==> route(entries[j].key) == s
  }

  /** The entries of one load message, one after the other. */
  function LoadInto(st: State, s: nat, entries: seq<R.RdbEntry>, now: Time): (r: State)
    requires Shape(st) && s < |st.rows| && InRange(entries)
    ensures Shape(r) && |r.rows| == |st.rows|
    decreases |entries|
  {
    if entries == [] then st
    else
      var e := entries[0];
      LoadInto(Exec(st, Message(s, e.db, Single(e.key, LoadEffect(e))), now), s, entries[1..], now)
  }

  function Checks(keys: seq<bytes>): seq<Item> { seq(|keys|, j requires 0 <= j < |keys| => Item(keys[j], Exists)) }

  function Next(st: State, e: Event, route: bytes -> nat): (r: State)
    requires Shape(st) && Total(route, |st.rows|)
    ensures Shape(r) && |r.rows| == |st.rows|
  {
    match e
    case Submit(home, db, cmd, now) =>
      if home < |st.rows| && db < 16 then SubmitCommand(st, home, db, cmd, route, now) else st
    case Deliver(j) =>
      if j < |st.flight| && st.flight[j].shard < |st.queues| then
        var m := st.flight[j];
        st.(flight := st.flight[..j] + st.flight[j + 1..], queues := st.queues[m.shard := st.queues[m.shard] + [m]])
      else st
    case Work(s, now) =>
      if s < |st.queues| && st.queues[s] != [] && Fits(st.queues[s][0], |st.rows|) then
        Exec(st.(queues := st.queues[s := st.queues[s][1..]]), st.queues[s][0], now)
      else st
    case Sweep(s, db, keys, now) =>
      if s < |st.rows| && db < 16 && (forall k :: k in keys ==> k in st.rows[s][db].expire) then
        Exec(st, Message(s, db, Keys(Checks(keys))), now)
      else st
    case Snapshot(_) => st
    case Load(s, entries, now) =>
      if s < |st.rows| && Loadable(entries, route, s) then LoadInto(st, s, entries, now) else st
  }

  /** All events one after the other. */
  function Play(st: State, events: seq<Event>, route: bytes -> nat): (r: State)
    requires Shape(st) && Total(route, |st.rows|)
    ensures Shape(r) && |r.rows| == |st.rows|
    decreases |events|
  {
    if events == [] then st else Play(Next(st, events[0], route), events[1..], route)
  }
}
