/** The handlers as tasks of a shard, and what clients of the sharded server see: an eagerly expiring store. */
module ShardedCommands {
  import opened Common
  import opened PrimeValues
  import opened Databases
  import opened KeyOps
  import opened ShardTasks
  import opened ShardRuns
  import opened ShardSystem
  import opened Deliveries
  import opened Handlers
  import opened ExpiryRuns
  import C = Commands
  import E = EagerCommands
  import H = Handlers
  import K = KeyCommands
  import L = ListCommands
  import X = ExpiryRuns

  /** A command on one key. */
  datatype Call = OnString(cmd: X.Command) | OnList(key: bytes, change: L.Command)

  predicate OneKey(c: Call) {
    match c
    case OnString(cmd) => !cmd.CMSet? && !cmd.CMSetNx? && !cmd.CKeys? && !cmd.Sweep?
    case OnList(_, change) => L.Proper(change)
  }

  function KeyOf(c: Call): bytes
    requires OneKey(c)
  {
    match c case OnString(cmd) => cmd.key case OnList(k, _) => k
  }

  function HandleString(db: Db, c: X.Command, now: Time): Handled
    requires OneKey(OnString(c))
  {
    match c
    case CGet(k) => H.Get(db, k, now)
    case CSet(k, d, o) => H.Set(db, k, d, o, now)
    case CSetNx(k, d) => H.SetNx(db, k, d, now)
    case CSetEx(k, n, unit, d) => H.SetEx(db, k, n, unit, d, now)
    case CGetSet(k, d) => H.GetSet(db, k, d, now)
    case CGetDel(k) => H.GetDel(db, k, now)
    case CIncrBy(k, n) => H.IncrBy(db, k, n, now)
    case CAppend(k, d) => H.Append(db, k, d, now)
    case CExpire(k, n, unit) => H.Expire(db, k, n, unit, now)
    case CExpireAt(k, t, unit) => H.ExpireAt(db, k, t, unit, now)
    case CPersist(k) => H.Persist(db, k, now)
    case CTtl(k) => H.TimeToLive(db, k, 1000, now)
    case CPttl(k) => H.TimeToLive(db, k, 1, now)
  }

  /** What the handler of a command leaves in the tables and answers. */
  function Handle(db: Db, c: Call, now: Time): Handled
    requires OneKey(c)
  {
    match c
    case OnString(cmd) => HandleString(db, cmd, now)
    case OnList(k, change) => Handled(L.After(db, k, change, now), L.Replied(db, k, change, now))
  }

  // ---- Handlers are local to the cell of their key ----

  /** `g` answers as `h` does and leaves the same for `k`. */
  ghost predicate Twins(h: Handled, g: Handled, k: bytes) { h.reply == g.reply && CellOf(h.db, k) == CellOf(g.db, k) }

  ghost predicate Spares(before: Db, after: Db, k: bytes) { forall l :: l != k ==> CellOf(after, l) == CellOf(before, l) }

  /** A step that depends on the cell of `k` only and changes no other. */
  ghost predicate Local(a: Db, h: Handled, g: Handled, k: bytes) { Twins(h, g, k) && Spares(a, h.db, k) }

  ghost predicate Alike(a: Db, after: Db, after': Db, k: bytes) { CellOf(after, k) == CellOf(after', k) && Spares(a, after, k) }

  lemma PurgedLocal(a: Db, b: Db, k: bytes, now: Time)
    requires CellOf(a, k) == CellOf(b, k)
    ensures Alike(a, Purged(a, k, now), Purged(b, k, now), k) && Found(a, k, now) == Found(b, k, now)
    ensures TtlOf(a, k, now) == TtlOf(b, k, now) && (k in a.prime <==> k in b.prime) && (k in a.expire <==> k in b.expire)
  {}

  lemma DropLocal(a: Db, b: Db, k: bytes)
    ensures Alike(a, Drop(a, k), Drop(b, k), k)
  {}

  lemma PutLocal(a: Db, b: Db, k: bytes, v: PrimeValue)
    requires CellOf(a, k) == CellOf(b, k)
    ensures Alike(a, Put(a, k, v), Put(b, k, v), k)
  {}

  lemma DeadlineLocal(a: Db, b: Db, k: bytes)
    requires CellOf(a, k) == CellOf(b, k)
    ensures Alike(a, ClearDeadline(a, k), ClearDeadline(b, k), k)
    ensures forall t :: Alike(a, SetDeadline(a, k, t), SetDeadline(b, k, t), k)
  {}

  /** All that the handlers do to a database. */
  lemma ChangeLocal(a: Db, b: Db, k: bytes)
    requires CellOf(a, k) == CellOf(b, k)
    ensures Alike(a, Drop(a, k), Drop(b, k), k) && Alike(a, ClearDeadline(a, k), ClearDeadline(b, k), k)
    ensures forall t :: Alike(a, SetDeadline(a, k, t), SetDeadline(b, k, t), k)
    ensures forall v :: Alike(a, Put(a, k, v), Put(b, k, v), k)
    ensures forall v :: Alike(a, ClearDeadline(Put(a, k, v), k), ClearDeadline(Put(b, k, v), k), k)
    ensures forall v, t :: Alike(a, SetDeadline(Put(a, k, v), k, t), SetDeadline(Put(b, k, v), k, t), k)
  {
    hide CellOf, Drop, Put, SetDeadline, ClearDeadline;
    DropLocal(a, b, k);
    DeadlineLocal(a, b, k);
    forall v
      ensures Alike(a, Put(a, k, v), Put(b, k, v), k)
      ensures Alike(a, ClearDeadline(Put(a, k, v), k), ClearDeadline(Put(b, k, v), k), k)
      ensures forall t :: Alike(a, SetDeadline(Put(a, k, v), k, t), SetDeadline(Put(b, k, v), k, t), k)
    {
      PutLocal(a, b, k, v);
      DeadlineLocal(Put(a, k, v), Put(b, k, v), k);
    }
  }

  /** Before and after the key has been looked up. */
  lemma StepsLocal(a: Db, b: Db, k: bytes, now: Time)
    requires CellOf(a, k) == CellOf(b, k)
    ensures var c, d := Purged(a, k, now), Purged(b, k, now);
            && (forall v :: Alike(a, Put(c, k, v), Put(d, k, v), k))
            && (forall v :: Alike(a, ClearDeadline(Put(c, k, v), k), ClearDeadline(Put(d, k, v), k), k))
            && (forall v, t :: Alike(a, SetDeadline(Put(c, k, v), k, t), SetDeadline(Put(d, k, v), k, t), k))
            && (forall t :: Alike(a, SetDeadline(c, k, t), SetDeadline(d, k, t), k))
            && Alike(a, ClearDeadline(c, k), ClearDeadline(d, k), k) && Alike(a, Drop(c, k), Drop(d, k), k)
            && Alike(a, c, d, k)
    ensures Alike(a, a, b, k) && forall v, t :: Alike(a, SetDeadline(Put(a, k, v), k, t), SetDeadline(Put(b, k, v), k, t), k)
  {
    hide CellOf, Drop, Put, SetDeadline, ClearDeadline, Found, Purged, TtlOf;
    PurgedLocal(a, b, k, now);
    ChangeLocal(a, b, k);
    ChangeLocal(Purged(a, k, now), Purged(b, k, now), k);
  }

  lemma StringLocal(a: Db, b: Db, c: X.Command, now: Time)
    requires OneKey(OnString(c)) && CellOf(a, c.key) == CellOf(b, c.key)
    ensures Local(a, HandleString(a, c, now), HandleString(b, c, now), c.key)
  {
    hide FromBytes, AsBytes, AsInteger, CellOf, Drop, Put, SetDeadline, ClearDeadline, Found, Purged, TtlOf, Spares;
    PurgedLocal(a, b, c.key, now);
    PurgedLocal(Purged(a, c.key, now), Purged(b, c.key, now), c.key, now);
    StepsLocal(a, b, c.key, now);
  }

  lemma ListLocal(a: Db, b: Db, k: bytes, c: L.Command, now: Time)
    requires L.Proper(c) && CellOf(a, k) == CellOf(b, k)
    ensures Local(a, Handle(a, OnList(k, c), now), Handle(b, OnList(k, c), now), k)
  {
    hide L.NewItems, L.ReplyTo, L.Pushed, L.Proper, CellOf, Drop, Put, Found, Purged;
    PurgedLocal(a, b, k, now);
    ChangeLocal(Purged(a, k, now), Purged(b, k, now), k);
  }

  // ---- Handlers as tasks ----

  /** A database with nothing but the cell of `k`. */
  function Lone(k: bytes, c: Cell): Db {
    Db(if c.value.Some? then map[k := c.value.value] else map[], if c.deadline.Some? then map[k := c.deadline.value] else map[])
  }

  lemma LoneCell(k: bytes, c: Cell)
    ensures CellOf(Lone(k, c), k) == c
  {}

  /** The handler as a step on the cell of its key. */
  function EffectOf(c: Call): ShardTasks.Effect
    requires OneKey(c)
  {
    (cell: Cell, now: Time) =>
      var h := Handle(Lone(KeyOf(c), cell), c, now);
      (CellOf(h.db, KeyOf(c)), h.reply)
  }

  lemma HandleLocal(a: Db, b: Db, c: Call, now: Time)
    requires OneKey(c) && CellOf(a, KeyOf(c)) == CellOf(b, KeyOf(c))
    ensures Local(a, Handle(a, c, now), Handle(b, c, now), KeyOf(c))
  {
    hide Local, HandleString;
    match c
    case OnString(cmd) => StringLocal(a, b, cmd, now);
    case OnList(k, change) => ListLocal(a, b, k, change, now);
  }

  /** A command on a string does to the view, and answers, what the eager store would. */
  lemma StringView(db: Db, c: X.Command, now: Time)
    requires WellFormed(db) && OneKey(OnString(c))
    ensures Eagerly(HandleString(db, c, now), now, EagerStep(View(db, now), now, c))
  {
    hide Eagerly, H.Set, H.IncrBy, H.Append, H.Expire, H.ExpireAt, H.GetSet, H.GetDel, H.Persist, H.SetNx, H.SetEx, H.Get, H.TimeToLive;
    match c
    case CGet(k) => GetView(db, k, now);
    case CSet(k, d, o) => SetView(db, k, d, o, now);
    case CSetNx(k, d) => SetNxView(db, k, d, now);
    case CSetEx(k, n, unit, d) => SetExView(db, k, n, unit, d, now);
    case CGetSet(k, d) => GetSetView(db, k, d, now);
    case CGetDel(k) => GetDelView(db, k, now);
    case CIncrBy(k, n) => IncrByView(db, k, n, now);
    case CAppend(k, d) => AppendView(db, k, d, now);
    case CExpire(k, n, unit) => ExpireView(db, k, n, unit, now);
    case CExpireAt(k, t, unit) => ExpireAtView(db, k, t, unit, now);
    case CPersist(k) => PersistView(db, k, now);
    case CTtl(k) => TimeToLiveView(db, k, 1000, now);
    case CPttl(k) => TimeToLiveView(db, k, 1, now);
  }

  lemma ListWellFormed(db: Db, k: bytes, c: L.Command, now: Time)
    requires L.Proper(c) && WellFormed(db)
    ensures WellFormed(L.After(db, k, c, now))
  {
    hide L.NewItems, L.Pushed;
  }

  /** Sent to a shard as a task, a command does and answers exactly what its handler does there. */
  lemma TaskIsHandler(db: Db, c: Call, now: Time)
    requires WellFormed(db) && OneKey(c)
    ensures var h, t := Handle(db, c, now), Single(KeyOf(c), EffectOf(c));
            Perform(db, t, now) == h.db && OutcomeOf(db, t, now) == Replied(h.reply) && WellFormed(h.db)
  {
    hide Handle, CellOf, ShardTasks.Store, WellFormed, Lone;
    var k, h := KeyOf(c), Handle(db, c, now);
    var lone := Lone(k, CellOf(db, k));
    var cell := CellOf(Handle(lone, c, now).db, k);
    LoneCell(k, CellOf(db, k));
    HandleLocal(db, lone, c, now);
    HandleWellFormed(db, c, now);
    forall l
      ensures CellOf(ShardTasks.Store(db, k, cell), l) == CellOf(h.db, l)
    {
      StoreCell(db, k, cell, l);
      ValueFirst(h.db, k);
    }
    SameCells(ShardTasks.Store(db, k, cell), h.db);
  }

  lemma HandleWellFormed(db: Db, c: Call, now: Time)
    requires WellFormed(db) && OneKey(c)
    ensures WellFormed(Handle(db, c, now).db)
  {
    hide WellFormed, HandleString, EagerStep;
    match c
    case OnString(cmd) => StringView(db, cmd, now);
    case OnList(k, change) => ListWellFormed(db, k, change, now);
  }

  lemma ValueFirst(db: Db, k: bytes)
    requires WellFormed(db)
    ensures CellOf(db, k).value.None? ==> CellOf(db, k) == NOTHING
  {}

  // ---- Runs ----

  /** What a shard is sent for a command: the command itself, its share of an MSET, or a sweep. */
  ghost predicate Carries(t: Task, c: X.Command) {
    match t
    case Single(k, f) => OneKey(OnString(c)) && k == c.key && f == EffectOf(OnString(c))
    case SetNx(pairs) => c == CMSetNx(pairs)
    case Keys(items) => if c.CMSet? then K.Uniform(K.MSET, items) && c.pairs == K.Pairs(items) else c.Sweep? && K.Uniform(K.EXISTS, items)
    case _ => false
  }

  /** A share of an MSET and a sweep answer nothing that depends on the store. */
  ghost predicate Says(o: Outcome, reply: E.Reply) {
    match o
    case Replied(r) => reply == r
    case Done(ok) => reply == E.Num(if ok then 1 else 0)
    case _ => reply == E.Okay
  }

  lemma {:induction false} PutEachView(db: Db, pairs: seq<(bytes, bytes)>, now: Time)
    requires WellFormed(db)
    ensures WellFormed(C.PutEach(db, pairs)) && View(C.PutEach(db, pairs), now) == E.PutAll(View(db, now), pairs)
    decreases |pairs|
  {
    hide View, WellFormed, FromBytes, Put, ClearDeadline;
    if pairs != [] {
      var n := |pairs| - 1;
      PutEachView(db, pairs[..n], now);
      PutWithoutDeadline(C.PutEach(db, pairs[..n]), pairs[n].0, FromBytes(pairs[n].1), now);
    }
  }

  lemma {:induction false} SweepView(db: Db, items: seq<Item>, now: Time)
    requires WellFormed(db) && K.Uniform(K.EXISTS, items)
    ensures View(KeyOps.Run(db, items, now), now) == View(db, now)
    decreases |items|
  {
    hide View, WellFormed, Purged;
    if items != [] {
      PurgedView(db, items[0].key, now);
      SweepView(Purged(db, items[0].key, now), items[1..], now);
    }
  }

  lemma {:induction false} PutAllPeek(l: Live, pairs: seq<(bytes, bytes)>, k: bytes)
    ensures Peek(E.PutAll(l, pairs), k) ==
            match C.LastOf(pairs, k)
            case Some(data) => Some(Databases.Entry(FromBytes(data), None))
            case None => Peek(l, k)
    decreases |pairs|
  {
    hide FromBytes;
    if pairs != [] {
      PutAllPeek(l, pairs[..|pairs| - 1], k);
    }
  }

  lemma SamePeeks(a: Live, b: Live)
    requires forall k :: Peek(a, k) == Peek(b, k)
    ensures a == b
  {
    assert forall k :: (k in a <==> Peek(a, k).Some?) && (k in b <==> Peek(b, k).Some?);
    assert forall k :: k in a ==> a[k] == Peek(a, k).value && b[k] == Peek(b, k).value;
  }

  lemma NxView(db: Db, pairs: seq<(bytes, bytes)>, now: Time)
    requires WellFormed(db)
    ensures var e := E.MSetNx(View(db, now), pairs);
            View(C.NxRun(db, pairs, now), now) == e.live && e.reply == E.Num(if C.NxFree(db, pairs, now) then 1 else 0)
  {
    hide View, FromBytes, C.NxRun, WellFormed, Peek, C.NxFree, E.PutAll;
    NxAllOrNothing(db, pairs, now);
    if NoneLive(db, pairs, now) {
      var after, all := View(C.NxRun(db, pairs, now), now), E.PutAll(View(db, now), pairs);
      forall k
        ensures Peek(after, k) == Peek(all, k)
      {
        PutAllPeek(View(db, now), pairs, k);
      }
      SamePeeks(after, all);
    }
  }

  /** Any such task has the effect and the answer of the eager store. */
  lemma TaskIsEager(db: Db, t: Task, c: X.Command, now: Time)
    requires WellFormed(db) && Carries(t, c)
    ensures var e := EagerStep(View(db, now), now, c);
            View(Perform(db, t, now), now) == e.live && Says(OutcomeOf(db, t, now), e.reply)
  {
    hide View, C.NxRun, C.NxFree, KeyOps.Run, WellFormed, Handle, HandleString, EffectOf, E.MSetNx, C.PutEach;
    match t
    case Single(k, f) =>
      hide Perform, OutcomeOf, EagerStep;
      TaskIsHandler(db, OnString(c), now);
      StringView(db, c, now);
      HandleOfString(db, c, now);
    case SetNx(pairs) => NxView(db, pairs, now);
    case Keys(items) =>
      if c.CMSet? {
        K.PutEachRuns(db, items, now);
        PutEachView(db, c.pairs, now);
      } else {
        SweepView(db, items, now);
      }
  }

  lemma HandleOfString(db: Db, c: X.Command, now: Time)
    requires OneKey(OnString(c))
    ensures Handle(db, OnString(c), now) == HandleString(db, c, now)
  {}

  /** The log of a server, read as the commands of its clients on one clock. */
  ghost predicate Reads(log: seq<Executed>, script: seq<X.Event>) {
    |log| == |script| && forall j :: 0 <= j < |log| ==>
                                       && log[j].msg.db == script[j].db && log[j].now == script[j].time
                                       && Carries(log[j].msg.task, script[j].command)
  }

  /** At any later time the unsharded store shows what the eager store holds. */
  lemma {:induction false} ReplayIsEager(log: seq<Executed>, script: seq<X.Event>, now: Time, d: nat)
    requires LogFits(log) && Reads(log, script) && InOrder(script) && d < 16
    requires forall j :: 0 <= j < |script| ==> script[j].time <= now
    ensures View(Replay(EMPTY_ROW, log)[d], now) == Purge(EagerAfter(script)[d], now)
    decreases |log|
  {
    hide View, Purge, EagerStep, Perform, OutcomeOf, Carries, WellFormed;
    if log == [] {
      NothingStored(now, d);
    } else {
      var n := |log| - 1;
      var e, t := log[n], log[n].now;
      var before := Replay(EMPTY_ROW, log[..n]);
      ReplayIsEager(log[..n], script[..n], t, d);
      ReplayIsEager(log[..n], script[..n], t, e.msg.db);
      AllWellFormed(log[..n], e.msg.db);
      TaskIsEager(before[e.msg.db], e.msg.task, script[n].command, t);
      TimePasses(Replay(EMPTY_ROW, log)[d], t, now);
    }
  }

  lemma NothingStored(now: Time, d: nat)
    requires d < 16
    ensures View(Replay(EMPTY_ROW, [])[d], now) == Purge(EagerAfter([])[d], now)
  {}

  lemma AllWellFormed(log: seq<Executed>, d: nat)
    requires LogFits(log) && d < 16
    ensures WellFormed(Replay(EMPTY_ROW, log)[d])
  {
    ReplayWellFormed(EMPTY_ROW, log, d);
  }

  /**
   In every run from an empty server, however its commands were interleaved and over however many shards:
   if the log holds commands on strings, parts of MSET, MSETNX and sweeps only, at times that do not go
   back, then every answer is that of one eagerly expiring store without shards. The log and what is still
   waiting are together exactly what was handed in.
   */
  lemma ShardedIsEager(n: nat, events: seq<ShardSystem.Event>, route: bytes -> nat, script: seq<X.Event>, j: nat)
    requires n > 0 && Total(route, n)
    requires Reads(Play(Empty(n), events, route).log, script) && InOrder(script) && j < |script|
    ensures Says(Play(Empty(n), events, route).log[j].outcome, EagerReply(script, j))
    ensures InSystem(Play(Empty(n), events, route)) == AllHanded(Empty(n), events, route)
  {
    hide Play, InSystem, AllHanded, Honest, LogFits, Reads, InOrder, Says, EagerReply;
    NothingLost(n, events, route);
    EmptyHonest(n, events, route);
    AnswerIsEager(Play(Empty(n), events, route).log, script, j);
  }

  lemma AnswerIsEager(log: seq<Executed>, script: seq<X.Event>, j: nat)
    requires LogFits(log) && Honest(EMPTY_ROW, log) && Reads(log, script) && InOrder(script) && j < |script|
    ensures Says(log[j].outcome, EagerReply(script, j))
  {
    hide Replay, EagerAfter, View, Purge, EagerStep, Perform, OutcomeOf, Carries, Says, WellFormed;
    var e := log[j];
    ReplayIsEager(log[..j], script[..j], e.now, e.msg.db);
    AllWellFormed(log[..j], e.msg.db);
    TaskIsEager(Replay(EMPTY_ROW, log[..j])[e.msg.db], e.msg.task, script[j].command, e.now);
  }
}
