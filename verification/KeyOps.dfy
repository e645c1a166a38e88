/** Commands as lists of single-key operations, and why they may be split by shard. */
module KeyOps {
  import opened Common
  import opened PrimeValues
  import opened Databases

  datatype Op = Get | Exists | Del | Set(data: bytes)

  datatype Item = Item(key: bytes, op: Op)

  /** What an operation tells the client: a value, or how much it adds to the count. */
  datatype Answer = Value(text: Option<bytes>) | Count(n: nat)

  function Act(db: Db, i: Item, now: Time): Db {
    match i.op
    case Get => Purged(db, i.key, now)
    case Exists => Purged(db, i.key, now)
    case Del => Drop(db, i.key)
    case Set(data) => ClearDeadline(Put(db, i.key, FromBytes(data)), i.key)
  }

  function TextOf(v: Option<PrimeValue>): Option<bytes> {
    if v.Some? && IsString(v.value) then Some(AsBytes(v.value)) else None
  }

  function AnswerOf(db: Db, i: Item, now: Time): Answer {
    match i.op
    case Get => Value(TextOf(Found(db, i.key, now)))
    case Exists => Count(if Found(db, i.key, now).Some? then 1 else 0)
    case Del => Count(if i.key in db.prime then 1 else 0)
    case Set(_) => Count(0)
  }

  /** The operations one after the other on one database. */
  function Run(db: Db, items: seq<Item>, now: Time): Db
    decreases |items|
  {
    if items == [] then db else Run(Act(db, items[0], now), items[1..], now)
  }

  function Answers(db: Db, items: seq<Item>, now: Time): (r: seq<Answer>)
    ensures |r| == |items|
    decreases |items|
  {
    if items == [] then [] else [AnswerOf(db, items[0], now)] + Answers(Act(db, items[0], now), items[1..], now)
  }

  function Without(db: Db, keys: set<bytes>): Db { Db(db.prime - keys, db.expire - keys) }

  // ---- Cells ----

  /** All that a database holds for one key. */
  datatype Cell = Cell(value: Option<PrimeValue>, deadline: Option<Time>)

  const NOTHING := Cell(None, None)

  function CellOf(db: Db, k: bytes): Cell { Cell(Stored(db, k), DeadlineOf(db, k)) }

  /** Databases are determined by their cells. */
  lemma SameCells(a: Db, b: Db)
    requires forall k :: CellOf(a, k) == CellOf(b, k)
    ensures a == b
  {
    assert forall k :: (k in a.prime <==> CellOf(a, k).value.Some?) && (k in a.expire <==> CellOf(a, k).deadline.Some?);
    assert forall k :: (k in b.prime <==> CellOf(b, k).value.Some?) && (k in b.expire <==> CellOf(b, k).deadline.Some?);
    assert forall k :: k in a.prime ==> a.prime[k] == CellOf(a, k).value.value;
    assert forall k :: k in a.expire ==> a.expire[k] == CellOf(a, k).deadline.value;
    assert a.prime == b.prime && a.expire == b.expire;
  }

  /** An operation leaves every other key alone. */
  lemma ActElsewhere(db: Db, i: Item, now: Time, k: bytes)
    requires k != i.key
    ensures CellOf(Act(db, i, now), k) == CellOf(db, k)
  {
    hide FromBytes;
  }

  /** What an operation does and answers depends on the cell of its key only. */
  lemma ActHere(a: Db, b: Db, i: Item, now: Time)
    requires CellOf(a, i.key) == CellOf(b, i.key)
    ensures CellOf(Act(a, i, now), i.key) == CellOf(Act(b, i, now), i.key)
    ensures AnswerOf(a, i, now) == AnswerOf(b, i, now)
  {
    hide FromBytes, TextOf;
  }

  // ---- A database spread over shards ----

  /** The keys of shard `s` look the same in both databases. */
  ghost predicate Agree(a: Db, b: Db, route: bytes -> nat, s: nat) {
    forall k :: route(k) == s ==> CellOf(a, k) == CellOf(b, k)
  }

  /** Nothing is stored for the keys of other shards. */
  ghost predicate Own(db: Db, route: bytes -> nat, s: nat) {
    forall k :: route(k) != s ==> CellOf(db, k) == NOTHING
  }

  /** `whole` is the disjoint union of the shards, each of which holds its own keys only. */
  ghost predicate Spread(whole: Db, shards: seq<Db>, route: bytes -> nat) {
    forall s :: 0 <= s < |shards| ==> Agree(whole, shards[s], route, s) && Own(shards[s], route, s)
  }

  ghost predicate Total(route: bytes -> nat, n: nat) { forall k :: route(k) < n }

  /** The union is determined by the shards. */
  lemma SpreadUnique(a: Db, b: Db, shards: seq<Db>, route: bytes -> nat)
    requires Total(route, |shards|) && Spread(a, shards, route) && Spread(b, shards, route)
    ensures a == b
  {
    forall k
      ensures CellOf(a, k) == CellOf(b, k)
    {
      assert Agree(a, shards[route(k)], route, route(k)) && Agree(b, shards[route(k)], route, route(k));
    }
    SameCells(a, b);
  }

  // ---- The items of one shard ----

  function Sub(items: seq<Item>, route: bytes -> nat, s: nat): seq<Item> {
    if items == [] then []
    else (if route(items[0].key) == s then [items[0]] else []) + Sub(items[1..], route, s)
  }

  lemma {:induction false} HasPart(items: seq<Item>, route: bytes -> nat, p: nat)
    requires p < |items|
    ensures Sub(items, route, route(items[p].key)) != []
  {
    if p > 0 {
      HasPart(items[1..], route, p - 1);
    }
  }

  /** Where the items of a shard stand in the command, counted from `from`. */
  function Places(items: seq<Item>, route: bytes -> nat, s: nat, from: nat := 0): seq<int> {
    if items == [] then []
    else (if route(items[0].key) == s then [from] else []) + Places(items[1..], route, s, from + 1)
  }

  /** The places of a shard are the positions of its keys. */
  lemma {:induction false} PlaceOf(items: seq<Item>, route: bytes -> nat, s: nat, from: nat, p: int)
    ensures p in Places(items, route, s, from) <==> from <= p < from + |items| && route(items[p - from].key) == s
    decreases |items|
  {
    if items != [] {
      PlaceOf(items[1..], route, s, from + 1, p);
      var head: seq<int> := if route(items[0].key) == s then [from] else [];
      assert p in Places(items, route, s, from) <==> p in head || p in Places(items[1..], route, s, from + 1);
      if from < p < from + |items| {
        assert items[p - from] == items[1..][p - from - 1];
      }
    }
  }

  /** Two orders of visiting the keys of one shard agree: the whole command, and the shard's own part of it. */
  lemma {:induction false} SubSimulates(whole: Db, db: Db, items: seq<Item>, route: bytes -> nat, s: nat, now: Time)
    requires Agree(whole, db, route, s) && Own(db, route, s)
    ensures Agree(Run(whole, items, now), Run(db, Sub(items, route, s), now), route, s)
    ensures Own(Run(db, Sub(items, route, s), now), route, s)
    decreases |items|
  {
    hide Act, CellOf;
    if items != [] {
      var i, rest := items[0], items[1..];
      var whole' := Act(whole, i, now);
      if route(i.key) == s {
        var db' := Act(db, i, now);
        StepTogether(whole, db, i, route, s, now);
        SubSimulates(whole', db', rest, route, s, now);
        assert Sub(items, route, s)[0] == i && Sub(items, route, s)[1..] == Sub(rest, route, s);
      } else {
        StepAlone(whole, db, i, route, s, now);
        SubSimulates(whole', db, rest, route, s, now);
        assert Sub(items, route, s) == Sub(rest, route, s);
      }
    }
  }

  lemma StepTogether(whole: Db, db: Db, i: Item, route: bytes -> nat, s: nat, now: Time)
    requires Agree(whole, db, route, s) && Own(db, route, s) && route(i.key) == s
    ensures Agree(Act(whole, i, now), Act(db, i, now), route, s) && Own(Act(db, i, now), route, s)
    ensures AnswerOf(whole, i, now) == AnswerOf(db, i, now)
  {
    hide Act, CellOf, AnswerOf;
    ActHere(whole, db, i, now);
    forall k | k != i.key
      ensures CellOf(Act(whole, i, now), k) == CellOf(whole, k) && CellOf(Act(db, i, now), k) == CellOf(db, k)
    {
      ActElsewhere(whole, i, now, k);
      ActElsewhere(db, i, now, k);
    }
  }

  lemma StepAlone(whole: Db, db: Db, i: Item, route: bytes -> nat, s: nat, now: Time)
    requires Agree(whole, db, route, s) && route(i.key) != s
    ensures Agree(Act(whole, i, now), db, route, s)
  {
    hide Act, CellOf;
    forall k | k != i.key
      ensures CellOf(Act(whole, i, now), k) == CellOf(whole, k)
    {
      ActElsewhere(whole, i, now, k);
    }
  }

  /** The elements of `part` are those of `all` at the given places, counted from `from`. */
  ghost predicate Gathers<T(!new)>(part: seq<T>, places: seq<int>, all: seq<T>, from: nat) {
    && |part| == |places|
    && forall j :: 0 <= j < |part| ==> from <= places[j] < from + |all| && part[j] == all[places[j] - from]
  }

  lemma GathersLater<T(!new)>(part: seq<T>, places: seq<int>, x: T, all: seq<T>, from: nat)
    requires Gathers(part, places, all, from + 1)
    ensures Gathers(part, places, [x] + all, from)
    ensures Gathers([x] + part, [from] + places, [x] + all, from)
  {}

  /** Each answer of a shard is the answer of the whole command at the place the item came from. */
  lemma {:induction false} SubAnswers(whole: Db, db: Db, items: seq<Item>, route: bytes -> nat, s: nat, now: Time, from: nat)
    requires Agree(whole, db, route, s) && Own(db, route, s)
    ensures Gathers(Answers(db, Sub(items, route, s), now), Places(items, route, s, from), Answers(whole, items, now), from)
    decreases |items|
  {
    hide Act, CellOf, AnswerOf, Gathers, Agree, Own;
    if items == [] {
      GathersNone<Answer>(from);
    } else {
      var i, rest := items[0], items[1..];
      var whole', here := Act(whole, i, now), Sub(rest, route, s);
      if route(i.key) == s {
        var db' := Act(db, i, now);
        StepTogether(whole, db, i, route, s, now);
        SubAnswers(whole', db', rest, route, s, now, from + 1);
        assert Sub(items, route, s)[0] == i && Sub(items, route, s)[1..] == here;
        GathersLater(Answers(db', here, now), Places(rest, route, s, from + 1), AnswerOf(whole, i, now),
                     Answers(whole', rest, now), from);
      } else {
        StepAlone(whole, db, i, route, s, now);
        SubAnswers(whole', db, rest, route, s, now, from + 1);
        assert Sub(items, route, s) == here && Places(items, route, s, from) == Places(rest, route, s, from + 1);
        GathersLater(Answers(db, here, now), Places(rest, route, s, from + 1), AnswerOf(whole, i, now),
                     Answers(whole', rest, now), from);
      }
    }
  }

  lemma GathersNone<T(!new)>(from: nat)
    ensures Gathers<T>([], [], [], from)
  {}
}
