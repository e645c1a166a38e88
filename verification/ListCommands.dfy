/** List commands on a store: a list that becomes empty is deleted. */
module ListCommands {
  import opened Common
  import opened Collect
  import opened PrimeValues
  import opened Databases
  import opened DbSlices
  import opened ListValues
  import E = EagerCommands

  /** The kind of collection that a list is. */
  const LIST := 0

  datatype Command =
    | Push(values: Items, front: bool)
    | PopOne(front: bool)
    | PopMany(count: int, front: bool)
    | Rem(count: int, value: bytes)
    | Trim(start: int, stop: int)

  /** Numbers are 64 bits wide, and the arity check leaves a push at least one value. */
  predicate Proper(cmd: Command) {
    match cmd
    case Push(values, _) => values != []
    case PopOne(_) => true
    case PopMany(count, _) => InI64(count)
    case Rem(count, _) => InI64(count)
    case Trim(start, stop) => InI64(start) && InI64(stop)
  }

  /** The absolute value wraps around at the smallest number. */
  function Abs64(n: int): int { if n == I64_MIN then I64_MIN else if n < 0 then -n else n }

  function Removed(items: Items, count: int, v: bytes): Items {
    if count == 0 then RemoveFirst(items, v, I64_MAX)
    else if count > 0 then RemoveFirst(items, v, count)
    else Reversed(RemoveFirst(Reversed(items), v, Abs64(count)))
  }

  function Popped(items: Items, count: int, front: bool): (r: Items)
    ensures |r| <= |items|
  {
    var n := if Max0(count) < |items| then Max0(count) else |items|;
    if front then items[..n] else Reversed(items[|items| - n..])
  }

  function Pushed(items: Items, values: Items, front: bool): Items { if front then Reversed(values) + items else items + values }

  /** What a command makes of a list. */
  function NewItems(items: Items, cmd: Command): Items
    requires Proper(cmd)
  {
    match cmd
    case Push(values, front) => Pushed(items, values, front)
    case PopOne(front) => if items == [] then [] else if front then items[1..] else items[..|items| - 1]
    case PopMany(count, front) =>
      var n := |Popped(items, count, front)|;
      if front then items[n..] else items[..|items| - n]
    case Rem(count, v) => Removed(items, count, v)
    case Trim(start, stop) => Range(items, start, stop)
  }

  function ReplyTo(items: Items, cmd: Command): E.Reply
    requires Proper(cmd)
  {
    match cmd
    case Push(values, front) => E.Num(|items| + |values|)
    case PopOne(front) => if items == [] then E.Null else E.Bulk(if front then items[0] else items[|items| - 1])
    case PopMany(count, front) => E.Elements(Popped(items, count, front))
    case Rem(count, v) => E.Num(|items| - |Removed(items, count, v)|)
    case Trim(_, _) => E.Okay
  }

  function Absent(cmd: Command): E.Reply {
    match cmd
    case Push(values, _) => E.Num(|values|)
    case PopOne(_) => E.Null
    case PopMany(_, _) => E.Null
    case Rem(_, _) => E.Num(0)
    case Trim(_, _) => E.Okay
  }

  function StoreItems(db: Db, k: bytes, items: Items): Db {
    if items == [] then Drop(db, k) else Put(db, k, Collection(LIST, items))
  }

  predicate IsList(v: PrimeValue) { v.Collection? && v.kind == LIST }

  /** The database after a command on key `k`. */
  function After(db: Db, k: bytes, cmd: Command, now: Time): Db
    requires Proper(cmd)
  {
    var d, found := Purged(db, k, now), Found(db, k, now);
    if found.None? then (if cmd.Push? then Put(d, k, Collection(LIST, Pushed([], cmd.values, cmd.front))) else d)
    else if IsList(found.value) then StoreItems(d, k, NewItems(found.value.items, cmd))
    else d
  }

  function Replied(db: Db, k: bytes, cmd: Command, now: Time): E.Reply
    requires Proper(cmd)
  {
    var found := Found(db, k, now);
    if found.None? then Absent(cmd)
    else if IsList(found.value) then ReplyTo(found.value.items, cmd)
    else E.WrongType
  }

  // ---- The loops ----

  method PushAll(items: Items, values: Items, front: bool) returns (r: Items)
    ensures r == Pushed(items, values, front)
  {
    r := items;
    assert values[..0] == [] && Reversed([]) + items == items && items + [] == items;
    for j := 0 to |values|
      invariant r == Pushed(items, values[..j], front)
    {
      assert values[..j + 1][..j] == values[..j];
      if front {
        r := [values[j]] + r;
        assert Reversed(values[..j + 1]) == [values[j]] + Reversed(values[..j]);
      } else {
        r := r + [values[j]];
        assert values[..j + 1] == values[..j] + [values[j]];
      }
    }
    assert values[..|values|] == values;
  }

  method PopSome(items: Items, count: int, front: bool) returns (rest: Items, popped: Items)
    ensures popped == Popped(items, count, front)
    ensures rest == if front then items[|popped|..] else items[..|items| - |popped|]
  {
    hide Reversed;
    var n := if Max0(count) < |items| then Max0(count) else |items|;
    if front {
      rest, popped := PopFront(items, n);
    } else {
      rest, popped := PopBack(items, n);
    }
  }

  method PopFront(items: Items, n: nat) returns (rest: Items, popped: Items)
    requires n <= |items|
    ensures popped == items[..n] && rest == items[n..]
  {
    rest, popped := items, [];
    for j := 0 to n
      invariant popped == items[..j] && rest == items[j..]
    {
      popped := popped + [rest[0]];
      rest := rest[1..];
    }
  }

  method PopBack(items: Items, n: nat) returns (rest: Items, popped: Items)
    requires n <= |items|
    ensures popped == Reversed(items[|items| - n..]) && rest == items[..|items| - n]
  {
    rest, popped := items, [];
    assert items[|items|..] == [] && Reversed<bytes>([]) == [];
    hide Reversed;
    for j := 0 to n
      invariant popped == Reversed(items[|items| - j..]) && rest == items[..|items| - j]
    {
      var x := rest[|rest| - 1];
      assert items[|items| - j - 1..] == [x] + items[|items| - j..];
      ReversedCons(items[|items| - j..], x);
      popped := popped + [x];
      rest := rest[..|rest| - 1];
    }
  }

  /** A command on the list itself, in place. */
  method Apply(items: Items, cmd: Command) returns (r: Items, reply: E.Reply)
    requires Proper(cmd)
    ensures r == NewItems(items, cmd) && reply == ReplyTo(items, cmd)
  {
    hide RemoveFirst, Reversed, Range, First, Last;
    match cmd {
      case Push(values, front) =>
        r := PushAll(items, values, front);
        reply := E.Num(|r|);
      case PopOne(front) =>
        if items == [] {
          r, reply := items, E.Null;
        } else if front {
          r, reply := items[1..], E.Bulk(items[0]);
        } else {
          r, reply := items[..|items| - 1], E.Bulk(items[|items| - 1]);
        }
      case PopMany(count, front) =>
        var popped;
        r, popped := PopSome(items, count, front);
        reply := E.Elements(popped);
      case Rem(count, value) =>
        var max := if count == 0 then I64_MAX else Abs64(count);
        var removed;
        if count >= 0 {
          r, removed := Retain(items, value, max);
        } else {
          r, removed := RemoveFromTail(items, value, max);
        }
        reply := E.Num(removed);
      case Trim(start, stop) =>
        r := LTrim(items, start, stop);
        reply := E.Okay;
    }
  }

  /** A list command: the key is looked up, the list changed in place, and deleted if nothing is left. */
  method Execute(s: DbSlice, i: nat, k: bytes, cmd: Command) returns (reply: E.Reply)
    requires s.Valid() && i < 16 && Proper(cmd)
    modifies s`dbs
    ensures s.Valid() && s.dbs == old(s.dbs)[i := After(old(s.dbs[i]), k, cmd, s.now)]
    ensures reply == Replied(old(s.dbs[i]), k, cmd, s.now)
  {
    hide NewItems, Purged, Pushed, Proper, Drop, Put;
    var found := s.Find(i, k);
    if found.None? {
      if cmd.Push? {
        var items := PushAll([], cmd.values, cmd.front);
        var _ := s.AddOrUpdate(i, k, Collection(LIST, items));
      }
      return Absent(cmd);
    }
    if !IsList(found.value) {
      return E.WrongType;
    }
    var items;
    items, reply := Apply(found.value.items, cmd);
    if items == [] {
      var _ := s.Del(i, k);
    } else {
      var _ := s.AddOrUpdate(i, k, Collection(LIST, items));
    }
  }

  lemma {:induction false} RemoveNone(s: Items, v: bytes, n: int)
    requires n <= 0
    ensures RemoveFirst(s, v, n) == s
    decreases |s|
  {
    if s != [] {
      RemoveNone(s[1..], v, n);
      assert s == [s[0]] + s[1..];
    }
  }

  lemma ReversedTwice(s: Items)
    ensures Reversed(Reversed(s)) == s
  {}

  /** The smallest count has no absolute value and removes nothing; every other negative count works from the tail. */
  lemma RemNegative(items: Items, count: int, v: bytes)
    requires InI64(count) && count < 0
    ensures Removed(items, count, v) == if count == I64_MIN then items else Reversed(RemoveFirst(Reversed(items), v, -count))
  {
    if count == I64_MIN {
      RemoveNone(Reversed(items), v, I64_MIN);
      ReversedTwice(items);
    }
  }

  // ---- Which end ----

  /** LPUSH puts its values in front one by one, so that the last stands first; RPUSH appends them in order. */
  lemma PushedAt(items: Items, values: Items, front: bool, j: nat)
    requires values != [] && j < |items| + |values|
    ensures var r := NewItems(items, Push(values, front));
            && |r| == |items| + |values|
            && r[j] == if front then (if j < |values| then values[|values| - 1 - j] else items[j - |values|])
                       else (if j < |items| then items[j] else values[j - |items|])
  {}

  /** LPOP takes from the front and RPOP from the back, as many as asked for and present. */
  lemma PoppedAt(items: Items, count: int, front: bool, j: nat)
    requires InI64(count) && count >= 0
    ensures var n, rest := if count < |items| then count else |items|, NewItems(items, PopMany(count, front));
            && |rest| == |items| - n
            && (j < |rest| ==> rest[j] == items[if front then n + j else j])
            && ReplyTo(items, PopMany(count, front)).Elements?
            && |ReplyTo(items, PopMany(count, front)).items| == n
            && (j < n ==> ReplyTo(items, PopMany(count, front)).items[j] == items[if front then j else |items| - 1 - j])
  {}

  /** One element at a time. */
  lemma PoppedOne(items: Items, front: bool)
    requires items != []
    ensures var rest := NewItems(items, PopOne(front));
            exists x :: ReplyTo(items, PopOne(front)) == E.Bulk(x) && items == if front then [x] + rest else rest + [x]
  {
    var rest, x := NewItems(items, PopOne(front)), if front then items[0] else items[|items| - 1];
    assert ReplyTo(items, PopOne(front)) == E.Bulk(x) && items == if front then [x] + rest else rest + [x];
  }

  /** The key is free or holds a list. */
  predicate TakesList(db: Db, k: bytes, now: Time) { var f := Found(db, k, now); f.None? || IsList(f.value) }

  /**
   A value pushed at one end is popped from that end, and what was there before is there again. Popped from
   the other end, it comes out only after everything that was there.
   */
  lemma PushThenPop(db: Db, k: bytes, v: bytes, front: bool, now: Time)
    requires NoEmptyList(db) && WellFormed(db) && TakesList(db, k, now)
    ensures var pushed := After(db, k, Push([v], front), now);
            && Replied(pushed, k, PopOne(front), now) == E.Bulk(v)
            && After(pushed, k, PopOne(front), now) == Purged(db, k, now)
            && (Found(db, k, now).Some? ==>
                  Replied(pushed, k, PopOne(!front), now) == Replied(db, k, PopOne(!front), now))
  {
    hide NewItems, ReplyTo, NoEmptyList;
    var items := if Found(db, k, now).Some? then Found(db, k, now).value.items else [];
    var more := NewItems(items, Push([v], front));
    PushedOne(items, v, front);
    var d, pushed := Purged(db, k, now), After(db, k, Push([v], front), now);
    assert pushed == Put(d, k, Collection(LIST, more));
    assert Found(pushed, k, now) == Some(Collection(LIST, more)) && Purged(pushed, k, now) == pushed;
    if Found(db, k, now).Some? {
      assert items != [] by { Stays(db, k, now); }
      assert Put(pushed, k, Collection(LIST, items)) == d by { assert d.prime[k] == Collection(LIST, items); assert d.prime[k := d.prime[k]] == d.prime; }
    } else {
      assert Drop(pushed, k) == d by { assert d.prime - {k} == d.prime && d.expire - {k} == d.expire; }
    }
  }

  lemma Stays(db: Db, k: bytes, now: Time)
    requires NoEmptyList(db) && Found(db, k, now).Some? && IsList(Found(db, k, now).value)
    ensures Found(db, k, now).value.items != []
  {}

  lemma PushedOne(items: Items, v: bytes, front: bool)
    ensures var more := NewItems(items, Push([v], front));
            && more != [] && NewItems(items, Push([v], front)) == Pushed(items, [v], front)
            && ReplyTo(more, PopOne(front)) == E.Bulk(v) && NewItems(more, PopOne(front)) == items
            && (items != [] ==> ReplyTo(more, PopOne(!front)) == ReplyTo(items, PopOne(!front)))
  {
    assert Reversed([v]) == [v];
  }

  // ---- Runs ----

  /** No key holds an empty list. */
  ghost predicate NoEmptyList(db: Db) { forall k :: k in db.prime && IsList(db.prime[k]) ==> db.prime[k].items != [] }

  lemma PushedSome(values: Items, front: bool)
    requires values != []
    ensures Pushed([], values, front) != []
  {}

  /** Every command keeps it that way. */
  lemma AfterNoEmpty(db: Db, k: bytes, cmd: Command, now: Time)
    requires Proper(cmd) && NoEmptyList(db)
    ensures NoEmptyList(After(db, k, cmd, now))
  {
    hide NewItems, Pushed;
    if cmd.Push? {
      PushedSome(cmd.values, cmd.front);
    }
  }

  datatype Call = Call(db: nat, key: bytes, cmd: Command, now: Time)

  ghost predicate NoneEmpty(dbs: seq<Db>) { forall i :: 0 <= i < |dbs| ==> NoEmptyList(dbs[i]) }

  predicate ProperCalls(calls: seq<Call>) {
    forall j :: 0 <= j < |calls| ==> calls[j].db < 16 && Proper(calls[j].cmd)
  }

  /** The databases after a list of calls. */
  function AfterCalls(dbs: seq<Db>, calls: seq<Call>): (r: seq<Db>)
    requires |dbs| == 16 && ProperCalls(calls)
    ensures |r| == 16
  {
    if calls == [] then dbs
    else
      var c, before := calls[|calls| - 1], AfterCalls(dbs, calls[..|calls| - 1]);
      before[c.db := After(before[c.db], c.key, c.cmd, c.now)]
  }

  /** Over every run of list commands, at any times and on any keys, no empty list is ever left stored. */
  method Run(s: DbSlice, calls: seq<Call>) returns (replies: seq<E.Reply>)
    requires s.Valid() && NoneEmpty(s.dbs) && ProperCalls(calls)
    modifies s
    ensures s.Valid() && NoneEmpty(s.dbs) && s.dbs == AfterCalls(old(s.dbs), calls)
    ensures |replies| == |calls|
    ensures forall j :: 0 <= j < |calls| ==>
              var c := calls[j];
              replies[j] == Replied(AfterCalls(old(s.dbs), calls[..j])[c.db], c.key, c.cmd, c.now)
  {
    hide NoEmptyList, After, Proper, Replied;
    replies := [];
    assert calls[..0] == [];
    for j := 0 to |calls|
      invariant s.Valid() && NoneEmpty(s.dbs) && |replies| == j
      invariant s.dbs == AfterCalls(old(s.dbs), calls[..j])
      invariant forall l :: 0 <= l < j ==>
                  var c := calls[l];
                  replies[l] == Replied(AfterCalls(old(s.dbs), calls[..l])[c.db], c.key, c.cmd, c.now)
    {
      var c := calls[j];
      s.UpdateTime(c.now);
      AfterNoEmpty(s.dbs[c.db], c.key, c.cmd, c.now);
      assert calls[..j + 1][..j] == calls[..j] && calls[..j + 1][j] == c;
      var reply := Execute(s, c.db, c.key, c.cmd);
      replies := replies + [reply];
    }
    assert calls[..|calls|] == calls;
  }
}
