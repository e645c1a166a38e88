/** What MGET, MSET, DEL and EXISTS mean on one database, said without running them item by item. */
module KeyMeaning {
  import opened Common
  import opened PrimeValues
  import opened Databases
  import opened KeyOps
  import opened KeyCommands
  import C = Commands

  // ---- MGET ----

  /** Every value is the one found in the database as it was when the command started. */
  lemma {:induction false} GetsMeaning(db: Db, items: seq<Item>, now: Time, p: nat)
    requires Uniform(MGET, items) && p < |items|
    ensures Answers(db, items, now)[p] == Value(TextOf(Found(db, items[p].key, now)))
    decreases |items|
  {
    hide TextOf, Found, Purged;
    if p > 0 {
      assert forall j :: 0 <= j < |items[1..]| ==> items[1..][j] == items[j + 1];
      GetsMeaning(Act(db, items[0], now), items[1..], now, p - 1);
      C.FoundAfterPurge(db, items[0].key, now);
    }
  }

  // ---- MSET ----

  /** Of a key given several times the last value stays, without a deadline; other keys are left alone. */
  lemma {:induction false} LastWins(db: Db, items: seq<Item>, now: Time, k: bytes)
    requires Uniform(MSET, items)
    ensures CellOf(Run(db, items, now), k) ==
            match C.LastOf(Pairs(items), k)
            case Some(data) => Cell(Some(FromBytes(data)), None)
            case None => CellOf(db, k)
    decreases |items|
  {
    hide FromBytes;
    if items != [] {
      var n := |items| - 1;
      assert Pairs(items)[..n] == Pairs(items[..n]);
      LastWins(db, items[..n], now, k);
      Extended(db, items, n, now);
      assert items[..n + 1] == items;
      var before := Run(db, items[..n], now);
      hide Act, CellOf;
      if items[n].key == k {
        SetCell(before, k, items[n].op.data, now);
      } else {
        ActElsewhere(before, items[n], now, k);
      }
    }
  }

  lemma SetCell(db: Db, k: bytes, data: bytes, now: Time)
    ensures CellOf(Act(db, Item(k, Set(data)), now), k) == Cell(Some(FromBytes(data)), None)
  {
    hide FromBytes;
  }

  // ---- DEL ----

  function KeySet(items: seq<Item>): set<bytes> { set j | 0 <= j < |items| :: items[j].key }

  /** All keys go, and every key that was stored counts once however often it is named. */
  lemma {:induction false} DelsMeaning(db: Db, items: seq<Item>, now: Time)
    requires Uniform(DEL, items)
    ensures Run(db, items, now) == Without(db, KeySet(items))
    ensures Sum(Answers(db, items, now)) == |db.prime.Keys * KeySet(items)|
    decreases |items|
  {
    hide KeySet, Drop, Without, Sum;
    if items == [] {
      NoDels(db, items, now);
    } else {
      var k, rest := items[0].key, items[1..];
      UniformRest(items);
      KeySetCons(items);
      DelsMeaning(Drop(db, k), rest, now);
      DropMore(db, k, KeySet(rest));
      FirstDel(db, items, now);
      CountOnce(db.prime.Keys, KeySet(rest), k);
    }
  }

  lemma NoDels(db: Db, items: seq<Item>, now: Time)
    requires items == []
    ensures KeySet(items) == {} && Without(db, {}) == db && Sum(Answers(db, items, now)) == 0
    ensures |db.prime.Keys * {}| == 0
  {
    assert db.prime - {} == db.prime && db.expire - {} == db.expire;
    assert db.prime.Keys * {} == {};
  }

  lemma FirstDel(db: Db, items: seq<Item>, now: Time)
    requires items != [] && items[0].op.Del?
    ensures Run(db, items, now) == Run(Drop(db, items[0].key), items[1..], now)
    ensures Sum(Answers(db, items, now))
         == (if items[0].key in db.prime.Keys then 1 else 0) + Sum(Answers(Drop(db, items[0].key), items[1..], now))
  {
    hide Drop;
    assert Answers(db, items, now)[1..] == Answers(Drop(db, items[0].key), items[1..], now);
  }

  lemma UniformRest(items: seq<Item>)
    requires Uniform(DEL, items) && items != []
    ensures Uniform(DEL, items[1..]) && items[0].op.Del?
  {}

  lemma DropMore(db: Db, k: bytes, more: set<bytes>)
    ensures Without(Drop(db, k), more) == Without(db, {k} + more)
    ensures Drop(db, k).prime.Keys == db.prime.Keys - {k}
  {
    assert Drop(db, k).prime - more == db.prime - ({k} + more);
    assert Drop(db, k).expire - more == db.expire - ({k} + more);
  }

  lemma KeySetCons(items: seq<Item>)
    requires items != []
    ensures KeySet(items) == {items[0].key} + KeySet(items[1..])
  {
    forall k | k in KeySet(items)
      ensures k in {items[0].key} + KeySet(items[1..])
    {
      var j :| 0 <= j < |items| && items[j].key == k;
      assert j > 0 ==> items[1..][j - 1].key == k;
    }
    forall k | k in KeySet(items[1..])
      ensures k in KeySet(items)
    {
      var j :| 0 <= j < |items[1..]| && items[1..][j].key == k;
      assert items[j + 1].key == k;
    }
    assert items[0].key in KeySet(items);
  }

  lemma CountOnce(stored: set<bytes>, named: set<bytes>, k: bytes)
    ensures |stored * ({k} + named)| == |(stored - {k}) * named| + if k in stored then 1 else 0
  {
    var rest := (stored - {k}) * named;
    if k in stored {
      assert stored * ({k} + named) == rest + {k};
    } else {
      assert stored * ({k} + named) == rest;
    }
  }

  // ---- EXISTS ----

  /** How many of the named keys are live, each as often as it is named. */
  function LiveNames(items: seq<Item>, live: set<bytes>): nat {
    if items == [] then 0 else (if items[0].key in live then 1 else 0) + LiveNames(items[1..], live)
  }

  lemma {:induction false} ExistsMeaning(db: Db, items: seq<Item>, now: Time)
    requires Uniform(EXISTS, items) && WellFormed(db)
    ensures Sum(Answers(db, items, now)) == LiveNames(items, View(db, now).Keys)
    ensures WellFormed(Run(db, items, now)) && View(Run(db, items, now), now) == View(db, now)
    decreases |items|
  {
    hide Purged, Found, View, WellFormed;
    if items != [] {
      var k, rest := items[0].key, items[1..];
      assert forall j :: 0 <= j < |rest| ==> rest[j] == items[j + 1];
      PurgedView(db, k, now);
      ExistsMeaning(Purged(db, k, now), rest, now);
      assert Answers(db, items, now)[1..] == Answers(Purged(db, k, now), rest, now);
    }
  }
}
