/** The command handlers of the store, each proved to do what its eager counterpart does. */
module Commands {
  import opened Common
  import opened PrimeValues
  import opened Databases
  import opened DbSlices
  import Eager = EagerCommands
  import opened EagerCommands
  import H = Handlers
  import opened Handlers
  import opened Lifetimes

  /** Seen through the live view, the step had this effect; the other databases are untouched. */
  ghost predicate Refines(before: seq<Db>, after: seq<Db>, i: nat, now: Time, reply: Reply, e: Effect) {
    && |before| == |after| == 16 && i < 16
    && (forall j :: 0 <= j < 16 ==> WellFormed(after[j]))
    && after == before[i := after[i]]
    && View(after[i], now) == e.live
    && reply == e.reply
  }

  method CmdGet(s: DbSlice, i: nat, k: bytes) returns (reply: Reply)
    requires s.Valid() && i < 16
    modifies s`dbs
    ensures Refines(old(s.dbs), s.dbs, i, s.now, reply, Eager.Get(old(View(s.dbs[i], s.now)), k))
    ensures Handled(s.dbs[i], reply) == H.Get(old(s.dbs[i]), k, s.now)
  {
    hide View, Purged, Found, AsBytes;
    GetView(s.dbs[i], k, s.now);
    var r := s.Find(i, k);
    if r.Some? && IsString(r.value) { return Bulk(AsBytes(r.value)); }
    if r.Some? { return WrongType; }
    return Null;
  }

  /** SET with every option: the longest handler. */
  method CmdSet(s: DbSlice, i: nat, k: bytes, data: bytes, o: SetOptions) returns (reply: Reply)
    requires s.Valid() && i < 16
    modifies s`dbs
    ensures Refines(old(s.dbs), s.dbs, i, s.now, reply, Eager.Set(old(View(s.dbs[i], s.now)), s.now, k, data, o))
    ensures Handled(s.dbs[i], reply) == H.Set(old(s.dbs[i]), k, data, o, s.now)
    ensures var l := old(View(s.dbs[i], s.now)); Writes(l, k, o) ==> SetLives(l, s.dbs[i], k, FromBytes(data), o, s.now)
  {
    hide View, Eager.Set, FromBytes, AsBytes, Purged, Found, H.SetBody, WellFormed, SetLives, Writes;
    SetView(s.dbs[i], k, data, o, s.now);
    SetLifetime(s.dbs[i], k, data, o, s.now);
    if o.nx && o.xx { return Incompatible; }
    ghost var db := s.dbs[i];
    PurgedOnce(db, k, s.now);
    var oldValue: Option<bytes> := None;
    if o.get {
      var r := s.Find(i, k);
      if r.Some? {
        if !IsString(r.value) { return WrongType; }
        oldValue := Some(AsBytes(r.value));
      }
    }
    var exists' := s.Exists(i, k);
    if o.nx && exists' {
      if o.get && oldValue.Some? { return Bulk(oldValue.value); }
      return Null;
    }
    if o.xx && !exists' { return Null; }
    var oldExpire: Option<Time> := None;
    if o.keepTtl && exists' {
      var ttl := s.TtlMs(i, k);
      if ttl.Expires? { oldExpire := Some(Wrap64(s.now + ttl.ms)); }
    }
    SetBody(s, i, k, data, o, oldExpire);
    if o.get {
      if oldValue.Some? { return Bulk(oldValue.value); }
      return Null;
    }
    return Okay;
  }

  /** Write the value, then the deadline the options ask for. */
  method SetBody(s: DbSlice, i: nat, k: bytes, data: bytes, o: SetOptions, oldExpire: Option<Time>)
    requires s.Valid() && i < 16
    modifies s`dbs
    ensures s.Valid() && s.dbs == old(s.dbs)[i := H.SetBody(old(s.dbs[i]), k, data, o, oldExpire, s.now)]
  {
    hide FromBytes;
    var _ := s.AddOrUpdate(i, k, FromBytes(data));
    if o.expiry.Some? {
      s.AddExpire(i, k, if o.expiry.value.absolute then o.expiry.value.ms else Wrap64(s.now + o.expiry.value.ms));
    } else if oldExpire.Some? {
      s.AddExpire(i, k, oldExpire.value);
    } else if !o.keepTtl {
      var _ := s.RemoveExpire(i, k);
    }
  }

  method CmdSetNx(s: DbSlice, i: nat, k: bytes, data: bytes) returns (reply: Reply)
    requires s.Valid() && i < 16
    modifies s`dbs
    ensures Refines(old(s.dbs), s.dbs, i, s.now, reply, Eager.SetNx(old(View(s.dbs[i], s.now)), s.now, k, data))
    ensures Handled(s.dbs[i], reply) == H.SetNx(old(s.dbs[i]), k, data, s.now)
  {
    hide View, FromBytes, Put, Purged, Found;
    SetNxView(s.dbs[i], k, data, s.now);
    var added := s.AddIfAbsent(i, k, FromBytes(data));
    return Num(if added then 1 else 0);
  }

  /** SETEX and PSETEX. */
  method CmdSetEx(s: DbSlice, i: nat, k: bytes, amount: int, unit: nat, data: bytes) returns (reply: Reply)
    requires s.Valid() && i < 16
    modifies s`dbs
    ensures Refines(old(s.dbs), s.dbs, i, s.now, reply, Eager.SetEx(old(View(s.dbs[i], s.now)), s.now, k, amount, unit, data))
    ensures Handled(s.dbs[i], reply) == H.SetEx(old(s.dbs[i]), k, amount, unit, data, s.now)
    ensures 0 < amount && amount * unit < U64_END ==> LivesFor(s.dbs[i], k, FromBytes(data), s.now, amount * unit)
  {
    hide View, FromBytes, LivesFor;
    if 0 < amount && amount * unit < U64_END {
      SetExLifetime(s.dbs[i], k, amount, unit, data, s.now);
    }
    SetExView(s.dbs[i], k, amount, unit, data, s.now);
    if amount <= 0 { return NotAnInteger; }
    var _ := s.AddOrUpdate(i, k, FromBytes(data));
    s.AddExpire(i, k, Wrap64(s.now + Wrap64(amount * unit)));
    return Okay;
  }

  function PutEach(db: Db, pairs: seq<(bytes, bytes)>): Db {
    if pairs == [] then db
    else
      var (k, data) := pairs[|pairs| - 1];
      ClearDeadline(Put(PutEach(db, pairs[..|pairs| - 1]), k, FromBytes(data)), k)
  }

  method CmdMSet(s: DbSlice, i: nat, pairs: seq<(bytes, bytes)>) returns (reply: Reply)
    requires s.Valid() && i < 16
    modifies s`dbs
    ensures Refines(old(s.dbs), s.dbs, i, s.now, reply, Eager.MSet(old(View(s.dbs[i], s.now)), pairs))
    ensures s.dbs[i] == PutEach(old(s.dbs[i]), pairs)
  {
    hide View, FromBytes, Put, ClearDeadline;
    ghost var live := View(s.dbs[i], s.now);
    for j := 0 to |pairs|
      invariant s.Valid() && s.dbs == old(s.dbs)[i := s.dbs[i]]
      invariant s.dbs[i] == PutEach(old(s.dbs[i]), pairs[..j])
      invariant View(s.dbs[i], s.now) == PutAll(live, pairs[..j])
    {
      var (k, data) := pairs[j];
      PutView(s.dbs[i], k, FromBytes(data), s.now);
      PutWithoutDeadline(s.dbs[i], k, FromBytes(data), s.now);
      var _ := s.AddOrUpdate(i, k, FromBytes(data));
      var _ := s.RemoveExpire(i, k);
      assert pairs[..j + 1][..j] == pairs[..j];
    }
    assert pairs[..|pairs|] == pairs;
    return Okay;
  }

  /** The data of the last pair for a key. */
  function LastOf(pairs: seq<(bytes, bytes)>, k: bytes): Option<bytes> {
    if pairs == [] then None
    else if pairs[|pairs| - 1].0 == k then Some(pairs[|pairs| - 1].1)
    else LastOf(pairs[..|pairs| - 1], k)
  }

  /** None of the keys is found. */
  predicate NxFree(db: Db, pairs: seq<(bytes, bytes)>, now: Time) {
    forall j :: 0 <= j < |pairs| ==> Found(db, pairs[j].0, now).None?
  }

  /** The checks expire keys up to and including the first one that is found. */
  function NxChecked(db: Db, pairs: seq<(bytes, bytes)>, now: Time): Db
    decreases |pairs|
  {
    if pairs == [] then db
    else if Found(db, pairs[0].0, now).Some? then Purged(db, pairs[0].0, now)
    else NxChecked(Purged(db, pairs[0].0, now), pairs[1..], now)
  }

  function PutPlain(db: Db, pairs: seq<(bytes, bytes)>): Db {
    if pairs == [] then db
    else Put(PutPlain(db, pairs[..|pairs| - 1]), pairs[|pairs| - 1].0, FromBytes(pairs[|pairs| - 1].1))
  }

  /** What MSETNX leaves behind. */
  function NxRun(db: Db, pairs: seq<(bytes, bytes)>, now: Time): Db {
    if NxFree(db, pairs, now) then PutPlain(NxChecked(db, pairs, now), pairs) else NxChecked(db, pairs, now)
  }

  /** Expiring one key changes nothing about what is found. */
  lemma FoundAfterPurge(db: Db, j: bytes, now: Time)
    ensures forall k :: Found(Purged(db, j, now), k, now) == Found(db, k, now)
  {}

  /** All keys are checked before any is written. */
  method CmdMSetNx(s: DbSlice, i: nat, pairs: seq<(bytes, bytes)>) returns (reply: Reply)
    requires s.Valid() && i < 16
    modifies s`dbs
    ensures Refines(old(s.dbs), s.dbs, i, s.now, reply, Eager.MSetNx(old(View(s.dbs[i], s.now)), pairs))
    ensures s.dbs[i] == NxRun(old(s.dbs[i]), pairs, s.now)
  {
    hide View, FromBytes, Put, Purged, Found, NxChecked;
    ghost var live, was := View(s.dbs[i], s.now), s.dbs[i];
    assert pairs[0..] == pairs;
    for j := 0 to |pairs|
      invariant s.Valid() && s.dbs == old(s.dbs)[i := s.dbs[i]]
      invariant View(s.dbs[i], s.now) == live
      invariant forall l :: 0 <= l < j ==> pairs[l].0 !in live && pairs[l].0 !in s.dbs[i].prime
      invariant forall k :: Found(s.dbs[i], k, s.now) == Found(was, k, s.now)
      invariant forall l :: 0 <= l < j ==> Found(was, pairs[l].0, s.now).None?
      invariant NxChecked(was, pairs, s.now) == NxChecked(s.dbs[i], pairs[j..], s.now)
    {
      ghost var db := s.dbs[i];
      PurgedView(db, pairs[j].0, s.now);
      PurgedShrinks(db, pairs[j].0, s.now);
      FoundAfterPurge(db, pairs[j].0, s.now);
      NextCheck(db, pairs, j, s.now);
      var exists' := s.Exists(i, pairs[j].0);
      if exists' { return Num(0); }
    }
    ghost var checked := s.dbs[i];
    NoCheck(checked, pairs, s.now);
    for j := 0 to |pairs|
      invariant s.Valid() && s.dbs == old(s.dbs)[i := s.dbs[i]]
      invariant View(s.dbs[i], s.now) == PutAll(live, pairs[..j])
      invariant forall l :: 0 <= l < |pairs| ==> DeadlineOf(s.dbs[i], pairs[l].0).None?
      invariant s.dbs[i] == PutPlain(checked, pairs[..j])
    {
      var (k, data) := pairs[j];
      PutView(s.dbs[i], k, FromBytes(data), s.now);
      PutKeepsDeadlines(s.dbs[i], k, FromBytes(data));
      var _ := s.AddOrUpdate(i, k, FromBytes(data));
      assert pairs[..j + 1][..j] == pairs[..j];
    }
    assert pairs[..|pairs|] == pairs;
    return Num(1);
  }

  lemma NextCheck(db: Db, pairs: seq<(bytes, bytes)>, j: nat, now: Time)
    requires j < |pairs|
    ensures NxChecked(db, pairs[j..], now) ==
            if Found(db, pairs[j].0, now).Some? then Purged(db, pairs[j].0, now)
            else NxChecked(Purged(db, pairs[j].0, now), pairs[j + 1..], now)
  {
    hide Found, Purged;
    assert pairs[j..][1..] == pairs[j + 1..];
  }

  lemma NoCheck(db: Db, pairs: seq<(bytes, bytes)>, now: Time)
    ensures NxChecked(db, pairs[|pairs|..], now) == db
  {}

  lemma PurgedShrinks(db: Db, k: bytes, now: Time)
    ensures forall l :: l in Purged(db, k, now).prime ==> l in db.prime
  {}

  lemma PutKeepsDeadlines(db: Db, k: bytes, v: PrimeValue)
    ensures forall l :: DeadlineOf(Put(db, k, v), l) == DeadlineOf(db, l)
  {}

  method CmdGetSet(s: DbSlice, i: nat, k: bytes, data: bytes) returns (reply: Reply)
    requires s.Valid() && i < 16
    modifies s`dbs
    ensures Refines(old(s.dbs), s.dbs, i, s.now, reply, Eager.GetSet(old(View(s.dbs[i], s.now)), k, data))
    ensures Handled(s.dbs[i], reply) == H.GetSet(old(s.dbs[i]), k, data, s.now)
  {
    hide View, FromBytes, Put, Purged, Found, ClearDeadline, AsBytes;
    GetSetView(s.dbs[i], k, data, s.now);
    var r := s.Find(i, k);
    if r.Some? && !IsString(r.value) { return WrongType; }
    var _ := s.AddOrUpdate(i, k, FromBytes(data));
    var _ := s.RemoveExpire(i, k);
    return if r.Some? then Bulk(AsBytes(r.value)) else Null;
  }

  method CmdGetDel(s: DbSlice, i: nat, k: bytes) returns (reply: Reply)
    requires s.Valid() && i < 16
    modifies s`dbs
    ensures Refines(old(s.dbs), s.dbs, i, s.now, reply, Eager.GetDel(old(View(s.dbs[i], s.now)), k))
    ensures Handled(s.dbs[i], reply) == H.GetDel(old(s.dbs[i]), k, s.now)
  {
    hide View, Purged, Found, Drop, AsBytes;
    GetDelView(s.dbs[i], k, s.now);
    var r := s.Find(i, k);
    if r.None? { return Null; }
    if !IsString(r.value) { return WrongType; }
    var _ := s.Del(i, k);
    return Bulk(AsBytes(r.value));
  }

  method CmdIncrBy(s: DbSlice, i: nat, k: bytes, delta: int) returns (reply: Reply)
    requires s.Valid() && i < 16
    modifies s`dbs
    ensures Refines(old(s.dbs), s.dbs, i, s.now, reply, Eager.IncrBy(old(View(s.dbs[i], s.now)), s.now, k, delta))
    ensures Handled(s.dbs[i], reply) == H.IncrBy(old(s.dbs[i]), k, delta, s.now)
  {
    hide View, Put, Purged, Found, AsInteger;
    IncrByView(s.dbs[i], k, delta, s.now);
    var r := s.Find(i, k);
    var current := 0;
    if r.Some? {
      var n := AsInteger(r.value);
      if n.None? { return NotAnInteger; }
      current := n.value;
    }
    if !InI64(current + delta) { return WouldOverflow; }
    var _ := s.AddOrUpdate(i, k, Integer(current + delta));
    return Num(current + delta);
  }

  method CmdAppend(s: DbSlice, i: nat, k: bytes, data: bytes) returns (reply: Reply)
    requires s.Valid() && i < 16
    modifies s`dbs
    ensures Refines(old(s.dbs), s.dbs, i, s.now, reply, Eager.Append(old(View(s.dbs[i], s.now)), k, data))
    ensures Handled(s.dbs[i], reply) == H.Append(old(s.dbs[i]), k, data, s.now)
  {
    hide View, Put, Purged, Found, AsBytes;
    AppendView(s.dbs[i], k, data, s.now);
    var r := s.Find(i, k);
    if r.Some? {
      if !IsString(r.value) { return WrongType; }
      var text := AsBytes(r.value) + data;
      var _ := s.AddOrUpdate(i, k, String(text));
      return Num(|text|);
    }
    var _ := s.AddOrUpdate(i, k, String(data));
    return Num(|data|);
  }

  /** EXPIRE and PEXPIRE. */
  method CmdExpire(s: DbSlice, i: nat, k: bytes, amount: int, unit: nat) returns (reply: Reply)
    requires s.Valid() && i < 16
    modifies s`dbs
    ensures Refines(old(s.dbs), s.dbs, i, s.now, reply, Eager.Expire(old(View(s.dbs[i], s.now)), s.now, k, amount, unit))
    ensures Handled(s.dbs[i], reply) == H.Expire(old(s.dbs[i]), k, amount, unit, s.now)
    ensures Dated(old(View(s.dbs[i], s.now)), s.dbs[i], k, amount, unit, s.now)
  {
    hide Dated, View, SetDeadline, Drop, Purged, Found;
    ExpireView(s.dbs[i], k, amount, unit, s.now);
    ExpireLifetime(s.dbs[i], k, amount, unit, s.now);
    if amount <= 0 {
      var exists' := s.Exists(i, k);
      if exists' {
        var _ := s.Del(i, k);
        return Num(1);
      }
      return Num(0);
    }
    var exists' := s.Exists(i, k);
    if !exists' { return Num(0); }
    s.AddExpire(i, k, Wrap64(s.now + Wrap64(amount * unit)));
    return Num(1);
  }

  /** EXPIREAT and PEXPIREAT. */
  method CmdExpireAt(s: DbSlice, i: nat, k: bytes, time: int, unit: nat) returns (reply: Reply)
    requires s.Valid() && i < 16
    modifies s`dbs
    ensures Refines(old(s.dbs), s.dbs, i, s.now, reply, Eager.ExpireAt(old(View(s.dbs[i], s.now)), s.now, k, time, unit))
    ensures Handled(s.dbs[i], reply) == H.ExpireAt(old(s.dbs[i]), k, time, unit, s.now)
    ensures var l := old(View(s.dbs[i], s.now));
            k in l && 0 <= time < U64_END && time * unit < U64_END ==>
              if time * unit <= s.now then Gone(s.dbs[i], k) else LivesUntil(s.dbs[i], k, l[k].value, time * unit)
  {
    ghost var l := View(s.dbs[i], s.now);
    hide Gone, LivesUntil;
    if k in l && 0 <= time < U64_END && time * unit < U64_END {
      ExpireAtLifetime(s.dbs[i], k, time, unit, s.now);
    }
    hide View, SetDeadline, Drop, Purged, Found;
    ExpireAtView(s.dbs[i], k, time, unit, s.now);
    var exists' := s.Exists(i, k);
    if !exists' { return Num(0); }
    var deadline := Wrap64(Wrap64(time) * unit);
    if deadline <= s.now {
      var _ := s.Del(i, k);
      return Num(1);
    }
    s.AddExpire(i, k, deadline);
    return Num(1);
  }

  method CmdPersist(s: DbSlice, i: nat, k: bytes) returns (reply: Reply)
    requires s.Valid() && i < 16
    modifies s`dbs
    ensures Refines(old(s.dbs), s.dbs, i, s.now, reply, Eager.Persist(old(View(s.dbs[i], s.now)), k))
    ensures Handled(s.dbs[i], reply) == H.Persist(old(s.dbs[i]), k, s.now)
    ensures var l := old(View(s.dbs[i], s.now)); k in l ==> LivesOn(s.dbs[i], k, l[k].value)
  {
    ghost var l := View(s.dbs[i], s.now);
    hide LivesOn;
    if k in l {
      PersistLifetime(s.dbs[i], k, s.now);
    }
    hide View, ClearDeadline, Purged, Found;
    PersistView(s.dbs[i], k, s.now);
    var exists' := s.Exists(i, k);
    if !exists' { return Num(0); }
    var removed := s.RemoveExpire(i, k);
    return Num(if removed then 1 else 0);
  }

  /** TTL and PTTL. */
  method CmdTtl(s: DbSlice, i: nat, k: bytes, unit: nat) returns (reply: Reply)
    requires s.Valid() && i < 16 && unit > 0
    modifies s`dbs
    ensures Refines(old(s.dbs), s.dbs, i, s.now, reply, Eager.TimeToLive(old(View(s.dbs[i], s.now)), s.now, k, unit))
    ensures Handled(s.dbs[i], reply) == H.TimeToLive(old(s.dbs[i]), k, unit, s.now)
  {
    hide View, Purged;
    TimeToLiveView(s.dbs[i], k, unit, s.now);
    var r := s.TtlMs(i, k);
    match r {
      case KeyNotFound => return Num(-2);
      case NoExpiry => return Num(-1);
      case Expires(ms) => return Num(Remaining(ms, unit));
    }
  }

  method CmdKeys(s: DbSlice, i: nat, matches: bytes -> bool, order: seq<bytes>) returns (reply: Reply)
    requires s.Valid() && i < 16 && Enumerates(order, s.dbs[i].prime.Keys)
    modifies s`dbs
    ensures Refines(old(s.dbs), s.dbs, i, s.now, reply, Eager.Keys(old(View(s.dbs[i], s.now)), matches))
  {
    hide View;
    ghost var live := View(s.dbs[i], s.now);
    var names := s.Keys(i, matches, order);
    assert (set k | k in names) == (set k | k in live && matches(k));
    return Names(set k | k in names);
  }
}
