/** Whole runs of the store: lazy expiry cannot be told from eager expiry. */
module ExpiryRuns {
  import opened Common
  import opened PrimeValues
  import opened Databases
  import opened DbSlices
  import Eager = EagerCommands
  import opened EagerCommands
  import opened Commands
  import opened Lifetimes
  import H = Handlers

  datatype Command =
    | CGet(key: bytes)
    | CSet(key: bytes, data: bytes, options: SetOptions)
    | CSetNx(key: bytes, data: bytes)
    | CSetEx(key: bytes, amount: int, unit: nat, data: bytes)
    | CMSet(pairs: seq<(bytes, bytes)>)
    | CMSetNx(pairs: seq<(bytes, bytes)>)
    | CGetSet(key: bytes, data: bytes)
    | CGetDel(key: bytes)
    | CIncrBy(key: bytes, delta: int)
    | CAppend(key: bytes, data: bytes)
    | CExpire(key: bytes, amount: int, unit: nat)
    | CExpireAt(key: bytes, time: int, unit: nat)
    | CPersist(key: bytes)
    | CTtl(key: bytes)
    | CPttl(key: bytes)
    | CKeys(matches: bytes -> bool)
    | Sweep(count: nat)

  /**
   One command, or one sweep of the background task, at a time on the clock. `iteration` is the order in
   which the tables happen to be iterated at that moment.
   */
  datatype Event = Event(time: Time, db: nat, command: Command, iteration: set<bytes> -> seq<bytes>)

  ghost predicate Iterates(iteration: set<bytes> -> seq<bytes>) { forall keys :: Enumerates(iteration(keys), keys) }

  function EagerStep(l: Live, now: Time, c: Command): Effect {
    match c
    case CGet(k) => Eager.Get(l, k)
    case CSet(k, d, o) => Eager.Set(l, now, k, d, o)
    case CSetNx(k, d) => Eager.SetNx(l, now, k, d)
    case CSetEx(k, n, unit, d) => Eager.SetEx(l, now, k, n, unit, d)
    case CMSet(ps) => Eager.MSet(l, ps)
    case CMSetNx(ps) => Eager.MSetNx(l, ps)
    case CGetSet(k, d) => Eager.GetSet(l, k, d)
    case CGetDel(k) => Eager.GetDel(l, k)
    case CIncrBy(k, n) => Eager.IncrBy(l, now, k, n)
    case CAppend(k, d) => Eager.Append(l, k, d)
    case CExpire(k, n, unit) => Eager.Expire(l, now, k, n, unit)
    case CExpireAt(k, t, unit) => Eager.ExpireAt(l, now, k, t, unit)
    case CPersist(k) => Eager.Persist(l, k)
    case CTtl(k) => Eager.TimeToLive(l, now, k, 1000)
    case CPttl(k) => Eager.TimeToLive(l, now, k, 1)
    case CKeys(m) => Eager.Keys(l, m)
    case Sweep(_) => Effect(l, Okay)
  }

  function PurgeAll(ls: seq<Live>, now: Time): (r: seq<Live>)
    ensures |r| == |ls| && forall i :: 0 <= i < |ls| ==> r[i] == Purge(ls[i], now)
  {
    seq(|ls|, i requires 0 <= i < |ls| => Purge(ls[i], now))
  }

  predicate InOrder(script: seq<Event>) {
    && (forall i :: 0 <= i < |script| ==> script[i].db < 16)
    && forall i, j :: 0 <= i < j < |script| ==> script[i].time <= script[j].time
  }

  /** The sixteen databases of the eager store after a run. */
  function EagerAfter(script: seq<Event>): (r: seq<Live>)
    requires forall i :: 0 <= i < |script| ==> script[i].db < 16
    ensures |r| == 16
  {
    if script == [] then seq(16, i => map[])
    else
      var e := script[|script| - 1];
      var ls := PurgeAll(EagerAfter(script[..|script| - 1]), e.time);
      ls[e.db := EagerStep(ls[e.db], e.time, e.command).live]
  }

  /** What the eager store replies to event `i`. */
  function EagerReply(script: seq<Event>, i: nat): Reply
    requires i < |script| && forall j :: 0 <= j < |script| ==> script[j].db < 16
  {
    var e := script[i];
    EagerStep(PurgeAll(EagerAfter(script[..i]), e.time)[e.db], e.time, e.command).reply
  }

  method Execute(s: DbSlice, i: nat, c: Command, iteration: set<bytes> -> seq<bytes>) returns (reply: Reply)
    requires s.Valid() && i < 16 && Iterates(iteration)
    modifies s`dbs
    ensures Refines(old(s.dbs), s.dbs, i, s.now, reply, EagerStep(old(View(s.dbs[i], s.now)), s.now, c))
  {
    hide View, Refines, Enumerates, Eager.Get, Eager.Set, Eager.SetNx, Eager.SetEx, Eager.MSet, Eager.MSetNx, Eager.GetSet, Eager.GetDel;
    hide Eager.IncrBy, Eager.Append, Eager.Expire, Eager.ExpireAt, Eager.Persist, Eager.TimeToLive, Eager.Keys;
    hide H.Get, H.Set, H.SetNx, H.SetEx, H.GetSet, H.GetDel, H.IncrBy, H.Append, H.Expire, H.ExpireAt, H.Persist, H.TimeToLive;
    hide PutEach, NxRun, SetLives, Writes, LivesFor, LivesOn, LivesUntil, Gone;
    match c {
      case CGet(k) => reply := CmdGet(s, i, k);
      case CSet(k, d, o) => reply := CmdSet(s, i, k, d, o);
      case CSetNx(k, d) => reply := CmdSetNx(s, i, k, d);
      case CSetEx(k, n, unit, d) => reply := CmdSetEx(s, i, k, n, unit, d);
      case CMSet(ps) => reply := CmdMSet(s, i, ps);
      case CMSetNx(ps) => reply := CmdMSetNx(s, i, ps);
      case CGetSet(k, d) => reply := CmdGetSet(s, i, k, d);
      case CGetDel(k) => reply := CmdGetDel(s, i, k);
      case CIncrBy(k, n) => reply := CmdIncrBy(s, i, k, n);
      case CAppend(k, d) => reply := CmdAppend(s, i, k, d);
      case CExpire(k, n, unit) => reply := CmdExpire(s, i, k, n, unit);
      case CExpireAt(k, t, unit) => reply := CmdExpireAt(s, i, k, t, unit);
      case CPersist(k) => reply := CmdPersist(s, i, k);
      case CTtl(k) => reply := CmdTtl(s, i, k, 1000);
      case CPttl(k) => reply := CmdTtl(s, i, k, 1);
      case CKeys(m) => reply := CmdKeys(s, i, m, iteration(s.dbs[i].prime.Keys));
      case Sweep(n) =>
        SweepStep(s, i, n, iteration(s.dbs[i].expire.Keys));
        reply := Okay;
    }
  }

  /** A sweep cannot be seen. */
  method SweepStep(s: DbSlice, i: nat, count: nat, order: seq<bytes>)
    requires s.Valid() && i < 16 && Enumerates(order, s.dbs[i].expire.Keys)
    modifies s`dbs
    ensures Refines(old(s.dbs), s.dbs, i, s.now, Okay, Effect(old(View(s.dbs[i], s.now)), Okay))
  {
    hide View, Enumerates;
    var _ := s.ExpireSweep(i, count, order);
  }

  /**
   In every run on a clock that does not go back, the lazily expiring store gives the replies of the
   eagerly expiring one and always holds, once expired keys are disregarded, exactly its contents.
   */
  method Run(script: seq<Event>) returns (s: DbSlice, replies: seq<Reply>)
    requires InOrder(script) && forall i :: 0 <= i < |script| ==> Iterates(script[i].iteration)
    ensures s.Valid() && |replies| == |script|
    ensures forall i :: 0 <= i < |script| ==> replies[i] == EagerReply(script, i)
    ensures forall d :: 0 <= d < 16 ==> View(s.dbs[d], s.now) == EagerAfter(script)[d]
  {
    hide View, EagerStep, Iterates, EagerAfter, Purge;
    s := new DbSlice();
    replies := [];
    Start(s.dbs, script);
    for i := 0 to |script|
      invariant s.Valid() && |replies| == i && fresh(s)
      invariant i < |script| ==> s.now <= script[i].time
      invariant forall j :: 0 <= j < i ==> replies[j] == EagerReply(script, j)
      invariant forall d :: 0 <= d < 16 ==> View(s.dbs[d], s.now) == EagerAfter(script[..i])[d]
    {
      var e := script[i];
      forall d | 0 <= d < 16 ensures View(s.dbs[d], e.time) == Purge(View(s.dbs[d], s.now), e.time) {
        TimePasses(s.dbs[d], s.now, e.time);
      }
      s.UpdateTime(e.time);
      var reply := Execute(s, e.db, e.command, e.iteration);
      Extended(script, i);
      replies := replies + [reply];
    }
    assert script[..|script|] == script;
  }

  lemma Start(dbs: seq<Db>, script: seq<Event>)
    requires dbs == seq(16, i => EMPTY_DB)
    ensures EagerAfter(script[..0]) == seq(16, i => map[])
    ensures forall d :: 0 <= d < 16 ==> View(dbs[d], 0) == map[]
  {}

  lemma Extended(script: seq<Event>, i: nat)
    requires i < |script| && forall j :: 0 <= j < |script| ==> script[j].db < 16
    ensures var e := script[i]; var ls := PurgeAll(EagerAfter(script[..i]), e.time);
            EagerAfter(script[..i + 1]) == ls[e.db := EagerStep(ls[e.db], e.time, e.command).live]
  {
    hide EagerStep;
    assert script[..i + 1][..i] == script[..i];
  }

  // ---- Deadlines ----

  /** GET, PTTL and TTL of a key at the current time. */
  method Ask(s: DbSlice, i: nat, k: bytes) returns (got: Reply, pttl: Reply, ttl: Reply)
    requires s.Valid() && i < 16
    modifies s`dbs
    ensures s.Valid() && View(s.dbs[i], s.now) == old(View(s.dbs[i], s.now))
    ensures got == Eager.Get(old(View(s.dbs[i], s.now)), k).reply
    ensures pttl == Eager.TimeToLive(old(View(s.dbs[i], s.now)), s.now, k, 1).reply
    ensures ttl == Eager.TimeToLive(old(View(s.dbs[i], s.now)), s.now, k, 1000).reply
  {
    hide View, H.Get, H.TimeToLive;
    got := CmdGet(s, i, k);
    pttl := CmdTtl(s, i, k, 1);
    ttl := CmdTtl(s, i, k, 1000);
  }

  /** What they answer about a key that lives until then. */
  lemma AskedUntil(db: Db, k: bytes, data: bytes, until: Time, t: Time)
    requires WellFormed(db) && LivesUntil(db, k, FromBytes(data), until)
    ensures Eager.Get(View(db, t), k).reply == if t < until then Bulk(data) else Null
    ensures Counts(Eager.TimeToLive(View(db, t), t, k, 1).reply, Eager.TimeToLive(View(db, t), t, k, 1000).reply, until - t)
  {
    assert if t < until then k in View(db, t) && View(db, t)[k].value == FromBytes(data) else k !in View(db, t);
    BytesRoundTrip(data);
    Countdown(db, k, FromBytes(data), until, t);
    H.TimeToLiveView(db, k, 1, t);
    H.TimeToLiveView(db, k, 1000, t);
    hide View, FromBytes, AsBytes, LivesUntil, Counts, Eager.TimeToLive, H.TimeToLive, WellFormed;
  }

  /** SET with PX or PXAT, and then at any time GET, PTTL and TTL. */
  method SetThenAsk(s: DbSlice, i: nat, k: bytes, data: bytes, ms: Time, absolute: bool, t: Time)
    returns (got: Reply, pttl: Reply, ttl: Reply)
    requires s.Valid() && i < 16 && (!absolute ==> s.now + ms < U64_END)
    modifies s
    ensures var until := if absolute then ms else old(s.now) + ms;
            got == (if t < until then Bulk(data) else Null) && Counts(pttl, ttl, until - t)
  {
    hide View, FromBytes, LivesUntil, H.Set, H.Get, H.TimeToLive, Eager.Get, Eager.Set, Eager.TimeToLive, Counts, WellFormed;
    ghost var until: Time := if absolute then ms else s.now + ms;
    var _ := CmdSet(s, i, k, data, SetOptions(false, false, false, false, Some(Expiry(ms, absolute))));
    AskedUntil(s.dbs[i], k, data, until, t);
    s.UpdateTime(t);
    got, pttl, ttl := Ask(s, i, k);
  }

  /** SETEX or PSETEX, and then at any time. */
  method SetExThenAsk(s: DbSlice, i: nat, k: bytes, amount: nat, unit: nat, data: bytes, t: Time)
    returns (got: Reply, pttl: Reply, ttl: Reply)
    requires s.Valid() && i < 16 && amount > 0 && s.now + amount * unit < U64_END
    modifies s
    ensures var until := old(s.now) + amount * unit;
            got == (if t < until then Bulk(data) else Null) && Counts(pttl, ttl, until - t)
  {
    hide View, FromBytes, LivesUntil, H.SetEx, H.Get, H.TimeToLive, Eager.Get, Eager.SetEx, Eager.TimeToLive, Counts, WellFormed;
    ghost var until: Time := s.now + amount * unit;
    var _ := CmdSetEx(s, i, k, amount, unit, data);
    AskedUntil(s.dbs[i], k, data, until, t);
    s.UpdateTime(t);
    got, pttl, ttl := Ask(s, i, k);
  }

  /** EXPIRE or PEXPIRE of a live string, and then at any time. */
  method ExpireThenAsk(s: DbSlice, i: nat, k: bytes, amount: nat, unit: nat, ghost data: bytes, t: Time)
    returns (got: Reply, pttl: Reply, ttl: Reply)
    requires s.Valid() && i < 16 && amount > 0 && s.now + amount * unit < U64_END
    requires k in View(s.dbs[i], s.now) && View(s.dbs[i], s.now)[k].value == FromBytes(data)
    modifies s
    ensures var until := old(s.now) + amount * unit;
            got == (if t < until then Bulk(data) else Null) && Counts(pttl, ttl, until - t)
  {
    hide View, FromBytes, LivesUntil, H.Expire, H.Get, H.TimeToLive, Eager.Get, Eager.Expire, Eager.TimeToLive, Counts, WellFormed;
    ghost var until: Time := s.now + amount * unit;
    var _ := CmdExpire(s, i, k, amount, unit);
    AskedUntil(s.dbs[i], k, data, until, t);
    s.UpdateTime(t);
    got, pttl, ttl := Ask(s, i, k);
  }

  // ---- Commands that do not look at deadlines ----

  /** DEL has the eager effect, but counts a key that has expired and was not removed yet. */
  lemma DelIff(db: Db, k: bytes, now: Time)
    requires WellFormed(db)
    ensures View(Drop(db, k), now) == View(db, now) - {k}
    ensures (k in db.prime <==> k in View(db, now)) <==> !(k in db.prime && Expired(db, k, now))
  {
    DropView(db, k, now);
  }

  function EagerRename(l: Live, from: bytes, to: bytes): Live {
    if from in l then (l - {from})[to := l[from]] else l
  }

  /**
   RENAME reports success on an expired key that was not removed yet. Its effect is that of the eager
   store unless such a key is renamed to a live one, which is then lost.
   */
  lemma RenameIff(db: Db, from: bytes, to: bytes, now: Time)
    requires WellFormed(db)
    ensures WellFormed(Renamed(db, from, to))
    ensures (from in db.prime <==> from in View(db, now)) <==> !(from in db.prime && Expired(db, from, now))
    ensures View(Renamed(db, from, to), now) == EagerRename(View(db, now), from, to) <==>
            !(from in db.prime && Expired(db, from, now) && to in View(db, now))
  {
    hide View, EagerRename, Renamed;
    if from in db.prime && Expired(db, from, now) {
      RenamedStale(db, from, to, now);
      StaleRename(View(db, now), from, to);
    } else {
      RenamedLive(db, from, to, now);
    }
    RenamedWellFormed(db, from, to);
    NotSeen(db, from, now);
  }

  /** RENAME of a live key: the target shows the value and deadline of the source, the source is gone, no other key changes. */
  lemma RenameLaw(db: Db, from: bytes, to: bytes, k: bytes, now: Time)
    requires WellFormed(db) && from in View(db, now)
    ensures var l, r := View(db, now), View(Renamed(db, from, to), now);
            if k == to then k in r && r[k] == l[from]
            else if k == from then k !in r
            else Peek(r, k) == Peek(l, k)
  {
    hide View, Renamed;
    NotSeen(db, from, now);
    RenamedLive(db, from, to, now);
  }

  lemma NotSeen(db: Db, k: bytes, now: Time)
    ensures k in View(db, now) <==> k in db.prime && !Expired(db, k, now)
  {}

  lemma RenamedWellFormed(db: Db, from: bytes, to: bytes)
    requires WellFormed(db)
    ensures WellFormed(Renamed(db, from, to))
  {}

  lemma RenamedStale(db: Db, from: bytes, to: bytes, now: Time)
    requires WellFormed(db) && from in db.prime && Expired(db, from, now)
    ensures from !in View(db, now) && View(Renamed(db, from, to), now) == View(db, now) - {to}
  {}

  lemma RenamedLive(db: Db, from: bytes, to: bytes, now: Time)
    requires WellFormed(db) && !(from in db.prime && Expired(db, from, now))
    ensures View(Renamed(db, from, to), now) == EagerRename(View(db, now), from, to)
  {}

  lemma StaleRename(l: Live, from: bytes, to: bytes)
    requires from !in l
    ensures l - {to} == EagerRename(l, from, to) <==> to !in l
  {}

  const K: bytes := [107]
  const L: bytes := [108]

  const IN_ONE_MS := SetOptions(false, false, false, false, Some(Expiry(1, false)))
  const NO_OPTIONS := SetOptions(false, false, false, false, None)

  /** A key set at time 0 to live for one millisecond is still stored at time 5, though no client can see it. */
  method Overdue() returns (s: DbSlice)
    ensures fresh(s) && s.Valid() && s.now == 5 && K in s.dbs[0].prime && Expired(s.dbs[0], K, 5)
    ensures K !in View(s.dbs[0], 5) && L in View(s.dbs[0], 5)
  {
    hide FromBytes;
    s := new DbSlice();
    s.UpdateTime(0);
    assert View(s.dbs[0], 0) == map[];
    var _ := CmdSet(s, 0, L, L, NO_OPTIONS);
    assert View(s.dbs[0], 0) == map[L := Entry(FromBytes(L), None)];
    var _ := CmdSet(s, 0, K, K, IN_ONE_MS);
    ghost var live := View(s.dbs[0], 0);
    assert live == map[L := Entry(FromBytes(L), None), K := Entry(FromBytes(K), Some(1))];
    assert K in live && live[K].deadline == DeadlineOf(s.dbs[0], K);
    TimePasses(s.dbs[0], 0, 5);
    s.UpdateTime(5);
  }

  /** DEL of that key answers 1; the eager store, which no longer has it, answers 0. */
  method DelWitness() returns (s: DbSlice, removed: bool, ghost eager: bool)
    ensures removed && !eager
  {
    s := Overdue();
    eager := K in View(s.dbs[0], s.now);
    removed := s.Del(0, K);
  }

  /** RENAME of that key to a live one answers that it did, and the live key is gone. */
  method RenameWitness() returns (s: DbSlice, ok: bool, ghost before: Live, ghost after: Live)
    ensures ok && K !in before && L in before && L !in after
    ensures after != EagerRename(before, K, L)
  {
    s := Overdue();
    before := View(s.dbs[0], 5);
    RenameIff(s.dbs[0], K, L, 5);
    RenamedStale(s.dbs[0], K, L, 5);
    ok := s.Rename(0, K, L);
    after := View(s.dbs[0], 5);
  }
}
