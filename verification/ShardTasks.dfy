/** Tasks that shards run, and why running one on its shard is running it on the whole store. */
module ShardTasks {
  import opened Common
  import opened PrimeValues
  import opened Databases
  import opened KeyOps
  import C = Commands
  import E = EagerCommands

  type Reply = E.Reply

  type Effect = (Cell, Time) -> (Cell, Reply)

  /** Commands that every shard runs on all its keys: FLUSHDB, KEYS and DBSIZE. */
  datatype Global = Flush | List(matches: bytes -> bool) | Count

  /**
   What is sent to a shard: part of a multi-key command, MSETNX, a command on one key, RENAME, or its share
   of a global command, which concerns the keys it owns.
   */
  datatype Task =
    | Keys(items: seq<Item>)
    | SetNx(pairs: seq<(bytes, bytes)>)
    | Single(key: bytes, effect: Effect)
    | Move(source: bytes, target: bytes)
    | Every(global: Global, owned: bytes -> bool)

  datatype Outcome =
    | Answered(answers: seq<Answer>)
    | Done(ok: bool)
    | Replied(reply: Reply)
    | Listed(keys: set<bytes>)
    | Counted(n: nat)

  /** Without a value there is no deadline either. */
  function Store(db: Db, k: bytes, c: Cell): Db {
    if c.value.None? then Drop(db, k)
    else Db(db.prime[k := c.value.value], if c.deadline.Some? then db.expire[k := c.deadline.value] else db.expire - {k})
  }

  predicate Stale(db: Db, k: bytes, now: Time) { k in db.prime && Expired(db, k, now) }

  /** FLUSHDB removes everything, KEYS what has expired. */
  function Globally(db: Db, g: Global, owned: bytes -> bool, now: Time): Db {
    match g
    case Flush => Without(db, set k | k in db.prime.Keys + db.expire.Keys && owned(k))
    case List(_) => Without(db, set k | k in db.prime && owned(k) && Stale(db, k, now))
    case Count => db
  }

  function GlobalOutcome(db: Db, g: Global, owned: bytes -> bool, now: Time): Outcome {
    match g
    case Flush => Done(true)
    case List(matches) => Listed(set k | k in View(db, now) && matches(k) && owned(k))
    case Count => Counted(|set k | k in db.prime && owned(k)|)
  }

  function Perform(db: Db, t: Task, now: Time): Db {
    match t
    case Keys(items) => Run(db, items, now)
    case SetNx(pairs) => C.NxRun(db, pairs, now)
    case Single(k, f) => Store(db, k, f(CellOf(db, k), now).0)
    case Move(from, to) => Renamed(db, from, to)
    case Every(g, owned) => Globally(db, g, owned, now)
  }

  function OutcomeOf(db: Db, t: Task, now: Time): Outcome {
    match t
    case Keys(items) => Answered(Answers(db, items, now))
    case SetNx(pairs) => Done(C.NxFree(db, pairs, now))
    case Single(k, f) => Replied(f(CellOf(db, k), now).1)
    case Move(from, to) => Done(from in db.prime)
    case Every(g, owned) => GlobalOutcome(db, g, owned, now)
  }

  /** Every key it names belongs to shard `s`. */
  ghost predicate Addressed(t: Task, route: bytes -> nat, s: nat) {
    match t
    case Keys(items) => forall j :: 0 <= j < |items| ==> route(items[j].key) == s
    case SetNx(pairs) => forall j :: 0 <= j < |pairs| ==> route(pairs[j].0) == s
    case Single(k, _) => route(k) == s
    case Move(from, to) => route(from) == s && route(to) == s
    case Every(_, owned) => forall k :: owned(k) <==> route(k) == s
  }

  // ---- Commands on several keys ----

  lemma {:induction false} ItemsTogether(whole: Db, db: Db, items: seq<Item>, route: bytes -> nat, s: nat, now: Time)
    requires Agree(whole, db, route, s) && Own(db, route, s) && Addressed(Keys(items), route, s)
    ensures Agree(Run(whole, items, now), Run(db, items, now), route, s) && Own(Run(db, items, now), route, s)
    ensures Answers(whole, items, now) == Answers(db, items, now)
    decreases |items|
  {
    hide Act, AnswerOf, Agree, Own;
    if items != [] {
      StepTogether(whole, db, items[0], route, s, now);
      assert forall j :: 0 <= j < |items[1..]| ==> items[1..][j] == items[j + 1];
      ItemsTogether(Act(whole, items[0], now), Act(db, items[0], now), items[1..], route, s, now);
    }
  }

  lemma {:induction false} ItemsElsewhere(whole: Db, db: Db, items: seq<Item>, route: bytes -> nat, s: nat, at: nat, now: Time)
    requires Agree(whole, db, route, s) && Addressed(Keys(items), route, at) && s != at
    ensures Agree(Run(whole, items, now), db, route, s)
    decreases |items|
  {
    hide Act, Agree;
    if items != [] {
      StepAlone(whole, db, items[0], route, s, now);
      assert forall j :: 0 <= j < |items[1..]| ==> items[1..][j] == items[j + 1];
      ItemsElsewhere(Act(whole, items[0], now), db, items[1..], route, s, at, now);
    }
  }

  // ---- MSETNX ----

  lemma FoundHere(a: Db, b: Db, k: bytes, now: Time)
    requires CellOf(a, k) == CellOf(b, k)
    ensures Found(a, k, now) == Found(b, k, now)
  {}

  lemma FreeTogether(whole: Db, db: Db, pairs: seq<(bytes, bytes)>, route: bytes -> nat, s: nat, now: Time)
    requires Agree(whole, db, route, s) && Addressed(SetNx(pairs), route, s)
    ensures C.NxFree(whole, pairs, now) == C.NxFree(db, pairs, now)
  {
    hide Found, CellOf;
    forall j | 0 <= j < |pairs|
      ensures Found(whole, pairs[j].0, now) == Found(db, pairs[j].0, now)
    {
      FoundHere(whole, db, pairs[j].0, now);
    }
  }

  lemma {:induction false} CheckTogether(whole: Db, db: Db, pairs: seq<(bytes, bytes)>, route: bytes -> nat, s: nat, now: Time)
    requires Agree(whole, db, route, s) && Own(db, route, s) && Addressed(SetNx(pairs), route, s)
    ensures Agree(C.NxChecked(whole, pairs, now), C.NxChecked(db, pairs, now), route, s)
    ensures Own(C.NxChecked(db, pairs, now), route, s)
    decreases |pairs|
  {
    hide Found, Purged, Agree, Own;
    if pairs != [] {
      var k := pairs[0].0;
      assert route(k) == s;
      StepTogether(whole, db, Item(k, Exists), route, s, now);
      assert Found(whole, k, now) == Found(db, k, now) by { AgreeAt(whole, db, route, s, k); FoundHere(whole, db, k, now); }
      assert forall j :: 0 <= j < |pairs[1..]| ==> pairs[1..][j] == pairs[j + 1];
      CheckTogether(Purged(whole, k, now), Purged(db, k, now), pairs[1..], route, s, now);
    }
  }

  lemma AgreeAt(a: Db, b: Db, route: bytes -> nat, s: nat, k: bytes)
    requires Agree(a, b, route, s) && route(k) == s
    ensures CellOf(a, k) == CellOf(b, k)
  {}

  lemma {:induction false} CheckElsewhere(whole: Db, db: Db, pairs: seq<(bytes, bytes)>, route: bytes -> nat, s: nat,
                                          at: nat, now: Time)
    requires Agree(whole, db, route, s) && Addressed(SetNx(pairs), route, at) && s != at
    ensures Agree(C.NxChecked(whole, pairs, now), db, route, s)
    decreases |pairs|
  {
    hide Found, Purged, Agree;
    if pairs != [] {
      var k := pairs[0].0;
      assert route(k) == at;
      StepAlone(whole, db, Item(k, Exists), route, s, now);
      assert forall j :: 0 <= j < |pairs[1..]| ==> pairs[1..][j] == pairs[j + 1];
      CheckElsewhere(Purged(whole, k, now), db, pairs[1..], route, s, at, now);
    }
  }

  lemma PutCell(db: Db, k: bytes, v: PrimeValue, l: bytes)
    ensures CellOf(Put(db, k, v), l) == if l == k then CellOf(db, l).(value := Some(v)) else CellOf(db, l)
  {}

  lemma {:induction false} PutTogether(whole: Db, db: Db, pairs: seq<(bytes, bytes)>, route: bytes -> nat, s: nat)
    requires Agree(whole, db, route, s) && Own(db, route, s) && Addressed(SetNx(pairs), route, s)
    ensures Agree(C.PutPlain(whole, pairs), C.PutPlain(db, pairs), route, s) && Own(C.PutPlain(db, pairs), route, s)
    decreases |pairs|
  {
    hide FromBytes, Put, CellOf;
    if pairs != [] {
      var n := |pairs| - 1;
      PutTogether(whole, db, pairs[..n], route, s);
      var a, b, k, v := C.PutPlain(whole, pairs[..n]), C.PutPlain(db, pairs[..n]), pairs[n].0, FromBytes(pairs[n].1);
      forall l
        ensures CellOf(Put(a, k, v), l) == if l == k then CellOf(a, l).(value := Some(v)) else CellOf(a, l)
        ensures CellOf(Put(b, k, v), l) == if l == k then CellOf(b, l).(value := Some(v)) else CellOf(b, l)
      {
        PutCell(a, k, v, l);
        PutCell(b, k, v, l);
      }
    }
  }

  lemma {:induction false} PutElsewhere(whole: Db, db: Db, pairs: seq<(bytes, bytes)>, route: bytes -> nat, s: nat, at: nat)
    requires Agree(whole, db, route, s) && Addressed(SetNx(pairs), route, at) && s != at
    ensures Agree(C.PutPlain(whole, pairs), db, route, s)
    decreases |pairs|
  {
    hide FromBytes, Put, CellOf;
    if pairs != [] {
      var n := |pairs| - 1;
      PutElsewhere(whole, db, pairs[..n], route, s, at);
      var a, k, v := C.PutPlain(whole, pairs[..n]), pairs[n].0, FromBytes(pairs[n].1);
      forall l | l != k
        ensures CellOf(Put(a, k, v), l) == CellOf(a, l)
      {
        PutCell(a, k, v, l);
      }
    }
  }

  // ---- Single keys and RENAME ----

  lemma StoreCell(db: Db, k: bytes, c: Cell, l: bytes)
    ensures CellOf(Store(db, k, c), l) ==
            if l != k then CellOf(db, l) else if c.value.None? then NOTHING else c
  {}

  lemma MoveElsewhere(db: Db, from: bytes, to: bytes, l: bytes)
    requires l != from && l != to
    ensures CellOf(Renamed(db, from, to), l) == CellOf(db, l)
  {}

  lemma MoveHere(a: Db, b: Db, from: bytes, to: bytes, l: bytes)
    requires CellOf(a, from) == CellOf(b, from) && CellOf(a, to) == CellOf(b, to) && (l == from || l == to)
    ensures CellOf(Renamed(a, from, to), l) == CellOf(Renamed(b, from, to), l)
  {}

  // ---- Global commands ----

  lemma GlobalCell(db: Db, g: Global, owned: bytes -> bool, now: Time, k: bytes)
    ensures var c := CellOf(db, k);
            CellOf(Globally(db, g, owned, now), k) ==
            if owned(k) && (g.Flush? || (g.List? && c.value.Some? && c.deadline.Some? && now >= c.deadline.value)) then NOTHING
            else c
  {}

  lemma SeenCell(db: Db, k: bytes, now: Time)
    ensures var c := CellOf(db, k);
            k in View(db, now) <==> c.value.Some? && !(c.deadline.Some? && now >= c.deadline.value)
    ensures k in db.prime <==> CellOf(db, k).value.Some?
  {}

  lemma GlobalTogether(whole: Db, db: Db, g: Global, owned: bytes -> bool, route: bytes -> nat, s: nat, now: Time)
    requires Agree(whole, db, route, s) && Own(db, route, s) && Addressed(Every(g, owned), route, s)
    ensures Agree(Globally(whole, g, owned, now), Globally(db, g, owned, now), route, s)
    ensures Own(Globally(db, g, owned, now), route, s)
    ensures GlobalOutcome(whole, g, owned, now) == GlobalOutcome(db, g, owned, now)
  {
    hide CellOf, Globally, View;
    forall k
      ensures route(k) == s ==> CellOf(Globally(whole, g, owned, now), k) == CellOf(Globally(db, g, owned, now), k)
      ensures route(k) != s ==> CellOf(Globally(db, g, owned, now), k) == NOTHING
      ensures owned(k) ==> (k in View(whole, now) <==> k in View(db, now)) && (k in whole.prime <==> k in db.prime)
    {
      GlobalCell(whole, g, owned, now, k);
      GlobalCell(db, g, owned, now, k);
      SeenCell(whole, k, now);
      SeenCell(db, k, now);
    }
    if g.Count? {
      assert (set k | k in whole.prime && owned(k)) == (set k | k in db.prime && owned(k));
    }
  }

  lemma GlobalElsewhere(whole: Db, db: Db, g: Global, owned: bytes -> bool, route: bytes -> nat, s: nat, at: nat, now: Time)
    requires Agree(whole, db, route, s) && Addressed(Every(g, owned), route, at) && s != at
    ensures Agree(Globally(whole, g, owned, now), db, route, s)
  {
    hide CellOf, Globally;
    forall k | route(k) == s
      ensures CellOf(Globally(whole, g, owned, now), k) == CellOf(whole, k)
    {
      GlobalCell(whole, g, owned, now, k);
    }
  }

  /** On the shard itself the share is everything: FLUSHDB clears it, KEYS lists all live keys, DBSIZE counts all keys. */
  lemma GlobalOwn(db: Db, g: Global, owned: bytes -> bool, route: bytes -> nat, s: nat, now: Time)
    requires Own(db, route, s) && Addressed(Every(g, owned), route, s)
    ensures g.Flush? ==> Globally(db, g, owned, now) == EMPTY_DB
    ensures g.List? ==> GlobalOutcome(db, g, owned, now) == Listed(set k | k in View(db, now) && g.matches(k))
    ensures g.Count? ==> GlobalOutcome(db, g, owned, now) == Counted(|db.prime|)
  {
    forall k
      ensures k in db.prime || k in db.expire ==> owned(k)
    {
      assert CellOf(db, k) == NOTHING || owned(k);
    }
    if g.Count? {
      assert (set k | k in db.prime && owned(k)) == db.prime.Keys;
    }
  }

  // ---- Any task ----

  /** A task does and answers on its shard what it would do and answer on the whole store. */
  lemma TaskTogether(whole: Db, db: Db, t: Task, route: bytes -> nat, s: nat, now: Time)
    requires Agree(whole, db, route, s) && Own(db, route, s) && Addressed(t, route, s)
    ensures Agree(Perform(whole, t, now), Perform(db, t, now), route, s) && Own(Perform(db, t, now), route, s)
    ensures OutcomeOf(whole, t, now) == OutcomeOf(db, t, now)
  {
    match t
    case Keys(items) => ItemsTogether(whole, db, items, route, s, now);
    case SetNx(pairs) => NxTogether(whole, db, pairs, route, s, now);
    case Single(k, f) => SingleTogether(whole, db, k, f, route, s, now);
    case Move(from, to) => MoveTogether(whole, db, from, to, route, s);
    case Every(g, owned) => GlobalTogether(whole, db, g, owned, route, s, now);
  }

  lemma NxTogether(whole: Db, db: Db, pairs: seq<(bytes, bytes)>, route: bytes -> nat, s: nat, now: Time)
    requires Agree(whole, db, route, s) && Own(db, route, s) && Addressed(SetNx(pairs), route, s)
    ensures Agree(C.NxRun(whole, pairs, now), C.NxRun(db, pairs, now), route, s) && Own(C.NxRun(db, pairs, now), route, s)
    ensures C.NxFree(whole, pairs, now) == C.NxFree(db, pairs, now)
  {
    hide Agree, Own, C.NxFree, C.NxChecked, C.PutPlain, Addressed;
    FreeTogether(whole, db, pairs, route, s, now);
    CheckTogether(whole, db, pairs, route, s, now);
    PutTogether(C.NxChecked(whole, pairs, now), C.NxChecked(db, pairs, now), pairs, route, s);
  }

  lemma SingleTogether(whole: Db, db: Db, k: bytes, f: Effect, route: bytes -> nat, s: nat, now: Time)
    requires Agree(whole, db, route, s) && Own(db, route, s) && route(k) == s
    ensures var c := f(CellOf(whole, k), now).0;
            && f(CellOf(whole, k), now) == f(CellOf(db, k), now)
            && Agree(Store(whole, k, c), Store(db, k, c), route, s) && Own(Store(db, k, c), route, s)
  {
    hide CellOf, Store;
    var c := f(CellOf(whole, k), now).0;
    forall l
      ensures CellOf(Store(whole, k, c), l) == if l != k then CellOf(whole, l) else if c.value.None? then NOTHING else c
      ensures CellOf(Store(db, k, c), l) == if l != k then CellOf(db, l) else if c.value.None? then NOTHING else c
    {
      StoreCell(whole, k, c, l);
      StoreCell(db, k, c, l);
    }
  }

  lemma MoveTogether(whole: Db, db: Db, from: bytes, to: bytes, route: bytes -> nat, s: nat)
    requires Agree(whole, db, route, s) && Own(db, route, s) && route(from) == s && route(to) == s
    ensures Agree(Renamed(whole, from, to), Renamed(db, from, to), route, s) && Own(Renamed(db, from, to), route, s)
    ensures from in whole.prime <==> from in db.prime
  {
    assert from in whole.prime <==> CellOf(whole, from).value.Some?;
    assert from in db.prime <==> CellOf(db, from).value.Some?;
    hide CellOf, Renamed;
    forall l
      ensures route(l) == s ==> CellOf(Renamed(whole, from, to), l) == CellOf(Renamed(db, from, to), l)
      ensures route(l) != s ==> CellOf(Renamed(db, from, to), l) == CellOf(db, l)
    {
      if l == from || l == to {
        MoveHere(whole, db, from, to, l);
      } else {
        MoveElsewhere(whole, from, to, l);
        MoveElsewhere(db, from, to, l);
      }
    }
  }

  /** The keys of other shards do not notice. */
  lemma TaskElsewhere(whole: Db, db: Db, t: Task, route: bytes -> nat, s: nat, at: nat, now: Time)
    requires Agree(whole, db, route, s) && Addressed(t, route, at) && s != at
    ensures Agree(Perform(whole, t, now), db, route, s)
  {
    match t
    case Keys(items) => ItemsElsewhere(whole, db, items, route, s, at, now);
    case SetNx(pairs) =>
      CheckElsewhere(whole, db, pairs, route, s, at, now);
      PutElsewhere(C.NxChecked(whole, pairs, now), db, pairs, route, s, at);
    case Single(k, f) => SingleElsewhere(whole, db, k, f(CellOf(whole, k), now).0, route, s);
    case Move(from, to) =>
      RenameElsewhere(whole, db, from, to, route, s);
    case Every(g, owned) => GlobalElsewhere(whole, db, g, owned, route, s, at, now);
  }

  lemma SingleElsewhere(whole: Db, db: Db, k: bytes, c: Cell, route: bytes -> nat, s: nat)
    requires Agree(whole, db, route, s) && route(k) != s
    ensures Agree(Store(whole, k, c), db, route, s)
  {
    hide CellOf, Store;
    forall l | l != k
      ensures CellOf(Store(whole, k, c), l) == CellOf(whole, l)
    {
      StoreCell(whole, k, c, l);
    }
  }

  lemma RenameElsewhere(whole: Db, db: Db, from: bytes, to: bytes, route: bytes -> nat, s: nat)
    requires Agree(whole, db, route, s) && route(from) != s && route(to) != s
    ensures Agree(Renamed(whole, from, to), db, route, s)
  {
    hide CellOf, Renamed;
    forall l | l != from && l != to
      ensures CellOf(Renamed(whole, from, to), l) == CellOf(whole, l)
    {
      MoveElsewhere(whole, from, to, l);
    }
  }
}
