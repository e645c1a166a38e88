/** What each command handler leaves in the tables and answers, and that clients of an eager store would see the same. */
module Handlers {
  import opened Common
  import opened PrimeValues
  import opened Databases
  import Eager = EagerCommands
  import opened EagerCommands

  datatype Handled = Handled(db: Db, reply: Reply)

  function Text(r: Option<PrimeValue>): Reply {
    if r.None? then Null else if IsString(r.value) then Bulk(AsBytes(r.value)) else WrongType
  }

  function Get(db: Db, k: bytes, now: Time): Handled { Handled(Purged(db, k, now), Text(Found(db, k, now))) }

  /** The deadline that SET leaves: the one asked for, the one kept, or none. */
  function SetBody(db: Db, k: bytes, data: bytes, o: SetOptions, kept: Option<Time>, now: Time): Db {
    var d := Put(db, k, FromBytes(data));
    if o.expiry.Some? then SetDeadline(d, k, Deadline(o.expiry.value, now))
    else if kept.Some? then SetDeadline(d, k, kept.value)
    else if !o.keepTtl then ClearDeadline(d, k)
    else d
  }

  function Kept(db: Db, k: bytes, o: SetOptions, now: Time): Option<Time> {
    var ttl := TtlOf(db, k, now);
    if o.keepTtl && ttl.Expires? then Some(Wrap64(now + ttl.ms)) else None
  }

  function Set(db: Db, k: bytes, data: bytes, o: SetOptions, now: Time): Handled {
    var d, r := Purged(db, k, now), Found(db, k, now);
    var was := if o.get then Text(r) else Null;
    if o.nx && o.xx then Handled(db, Incompatible)
    else if was.WrongType? || (o.nx && r.Some?) || (o.xx && r.None?) then Handled(d, was)
    else Handled(SetBody(d, k, data, o, Kept(d, k, o, now), now), if o.get then was else Okay)
  }

  function SetNx(db: Db, k: bytes, data: bytes, now: Time): Handled {
    Handled(PutIfAbsent(db, k, FromBytes(data), now), Num(if Found(db, k, now).None? then 1 else 0))
  }

  function SetEx(db: Db, k: bytes, amount: int, unit: nat, data: bytes, now: Time): Handled {
    if amount <= 0 then Handled(db, NotAnInteger)
    else Handled(SetDeadline(Put(db, k, FromBytes(data)), k, Wrap64(now + Wrap64(amount * unit))), Okay)
  }

  function GetSet(db: Db, k: bytes, data: bytes, now: Time): Handled {
    var d, was := Purged(db, k, now), Text(Found(db, k, now));
    if was.WrongType? then Handled(d, was) else Handled(ClearDeadline(Put(d, k, FromBytes(data)), k), was)
  }

  function GetDel(db: Db, k: bytes, now: Time): Handled {
    var d, was := Purged(db, k, now), Text(Found(db, k, now));
    if was.Bulk? then Handled(Drop(d, k), was) else Handled(d, was)
  }

  function IncrBy(db: Db, k: bytes, delta: int, now: Time): Handled {
    var d, r := Purged(db, k, now), Found(db, k, now);
    var current := if r.Some? then AsInteger(r.value) else Some(0);
    if current.None? then Handled(d, NotAnInteger)
    else if !InI64(current.value + delta) then Handled(d, WouldOverflow)
    else Handled(Put(d, k, Integer(current.value + delta)), Num(current.value + delta))
  }

  function Append(db: Db, k: bytes, data: bytes, now: Time): Handled {
    var d, r := Purged(db, k, now), Found(db, k, now);
    if r.Some? && !IsString(r.value) then Handled(d, WrongType)
    else
      var text := if r.Some? then AsBytes(r.value) + data else data;
      Handled(Put(d, k, String(text)), Num(|text|))
  }

  function Expire(db: Db, k: bytes, amount: int, unit: nat, now: Time): Handled {
    var d := Purged(db, k, now);
    if Found(db, k, now).None? then Handled(d, Num(0))
    else if amount <= 0 then Handled(Drop(d, k), Num(1))
    else Handled(SetDeadline(d, k, Wrap64(now + Wrap64(amount * unit))), Num(1))
  }

  function ExpireAt(db: Db, k: bytes, time: int, unit: nat, now: Time): Handled {
    var d, deadline := Purged(db, k, now), Wrap64(Wrap64(time) * unit);
    if Found(db, k, now).None? then Handled(d, Num(0))
    else if deadline <= now then Handled(Drop(d, k), Num(1))
    else Handled(SetDeadline(d, k, deadline), Num(1))
  }

  function Persist(db: Db, k: bytes, now: Time): Handled {
    var d := Purged(db, k, now);
    if Found(db, k, now).None? then Handled(d, Num(0))
    else Handled(ClearDeadline(d, k), Num(if k in d.expire then 1 else 0))
  }

  function TimeToLive(db: Db, k: bytes, unit: nat, now: Time): Handled
    requires unit > 0
  {
    Handled(if k in db.prime then Purged(db, k, now) else db,
            match TtlOf(db, k, now)
            case KeyNotFound => Num(-2)
            case NoExpiry => Num(-1)
            case Expires(ms) => Num(Remaining(ms, unit)))
  }

  // ---- Seen by a client ----

  /** The tables stay in order, and a client of an eager store would see this effect and reply. */
  ghost predicate Eagerly(h: Handled, now: Time, e: Effect) {
    WellFormed(h.db) && View(h.db, now) == e.live && h.reply == e.reply
  }

  lemma GetView(db: Db, k: bytes, now: Time)
    requires WellFormed(db)
    ensures Eagerly(Get(db, k, now), now, Eager.Get(View(db, now), k))
  {
    hide View, AsBytes, WellFormed, Found, Purged;
    PurgedView(db, k, now);
  }

  /** Alive at the moment: not past its deadline. */
  lemma PurgedIsAlive(db: Db, k: bytes, now: Time)
    requires !Expired(db, k, now)
    ensures forall v :: Alive(Entry(v, DeadlineOf(db, k)), now)
  {}

  lemma SetBodyView(db: Db, k: bytes, data: bytes, o: SetOptions, kept: Option<Time>, now: Time)
    requires WellFormed(db)
    requires o.keepTtl || kept.None?
    requires o.keepTtl ==> kept == DeadlineOf(db, k)
    ensures WellFormed(SetBody(db, k, data, o, kept, now))
    ensures var deadline := if o.expiry.Some? then Some(Deadline(o.expiry.value, now)) else kept;
            View(SetBody(db, k, data, o, kept, now), now) == Store(View(db, now), now, k, Entry(FromBytes(data), deadline))
  {
    hide View, FromBytes, Put, SetDeadline, ClearDeadline, WellFormed, DeadlineOf;
    var v := FromBytes(data);
    PutView(db, k, v, now);
    PutWithoutDeadline(db, k, v, now);
    if o.expiry.Some? {
      PutWithDeadline(db, k, v, Deadline(o.expiry.value, now), now);
    } else if kept.Some? {
      PutWithDeadline(db, k, v, kept.value, now);
    }
  }

  lemma KeptIs(db: Db, k: bytes, o: SetOptions, now: Time)
    requires WellFormed(db) && !Expired(db, k, now)
    ensures Kept(db, k, o, now) == if o.keepTtl then DeadlineOf(db, k) else None
  {}

  lemma SetView(db: Db, k: bytes, data: bytes, o: SetOptions, now: Time)
    requires WellFormed(db)
    ensures Eagerly(Set(db, k, data, o, now), now, Eager.Set(View(db, now), now, k, data, o))
  {
    hide View, FromBytes, AsBytes, WellFormed, Found, Purged, SetBody, Kept, DeadlineOf, Expired, Store;
    PurgedView(db, k, now);
    var d := Purged(db, k, now);
    KeptIs(d, k, o, now);
    SetBodyView(d, k, data, o, Kept(d, k, o, now), now);
  }

  /** A key that is found was not expired. */
  lemma FoundStays(db: Db, k: bytes, now: Time)
    ensures Found(db, k, now).Some? ==> Purged(db, k, now) == db
  {}

  /** What is found is found again. */
  lemma PurgedOnce(db: Db, k: bytes, now: Time)
    ensures var d := Purged(db, k, now);
            && Purged(d, k, now) == d && Found(d, k, now) == Found(db, k, now)
            && (Found(db, k, now).None? ==> TtlOf(d, k, now).KeyNotFound?)
            && (Found(db, k, now).Some? ==> k in d.prime)
  {}

  lemma SetNxView(db: Db, k: bytes, data: bytes, now: Time)
    requires WellFormed(db)
    ensures Eagerly(SetNx(db, k, data, now), now, Eager.SetNx(View(db, now), now, k, data))
  {
    hide View, FromBytes, WellFormed, Found, Purged, Put;
    PurgedView(db, k, now);
    PutView(Purged(db, k, now), k, FromBytes(data), now);
    FoundStays(db, k, now);
  }

  lemma SetExView(db: Db, k: bytes, amount: int, unit: nat, data: bytes, now: Time)
    requires WellFormed(db)
    ensures Eagerly(SetEx(db, k, amount, unit, data, now), now, Eager.SetEx(View(db, now), now, k, amount, unit, data))
  {
    hide View, FromBytes, WellFormed, Put, SetDeadline;
    if amount > 0 {
      PutWithDeadline(db, k, FromBytes(data), Wrap64(now + Wrap64(amount * unit)), now);
    }
  }

  lemma GetSetView(db: Db, k: bytes, data: bytes, now: Time)
    requires WellFormed(db)
    ensures Eagerly(GetSet(db, k, data, now), now, Eager.GetSet(View(db, now), k, data))
  {
    hide View, FromBytes, AsBytes, WellFormed, Found, Purged, Put, ClearDeadline;
    PurgedView(db, k, now);
    PutWithoutDeadline(Purged(db, k, now), k, FromBytes(data), now);
  }

  lemma GetDelView(db: Db, k: bytes, now: Time)
    requires WellFormed(db)
    ensures Eagerly(GetDel(db, k, now), now, Eager.GetDel(View(db, now), k))
  {
    hide View, AsBytes, WellFormed, Found, Purged, Drop;
    PurgedView(db, k, now);
    DropView(Purged(db, k, now), k, now);
  }

  lemma IncrByView(db: Db, k: bytes, delta: int, now: Time)
    requires WellFormed(db)
    ensures Eagerly(IncrBy(db, k, delta, now), now, Eager.IncrBy(View(db, now), now, k, delta))
  {
    hide View, AsInteger, WellFormed, Found, Purged, Put, Expired;
    var d := Purged(db, k, now);
    PurgedView(db, k, now);
    PurgedIsAlive(d, k, now);
    forall v
      ensures WellFormed(Put(d, k, v)) && View(Put(d, k, v), now) == View(db, now)[k := Entry(v, DeadlineOf(d, k))]
    {
      PutView(d, k, v, now);
    }
  }

  lemma AppendView(db: Db, k: bytes, data: bytes, now: Time)
    requires WellFormed(db)
    ensures Eagerly(Append(db, k, data, now), now, Eager.Append(View(db, now), k, data))
  {
    hide View, AsBytes, WellFormed, Found, Purged, Put, Expired;
    var d := Purged(db, k, now);
    PurgedView(db, k, now);
    PurgedIsAlive(d, k, now);
    forall v
      ensures WellFormed(Put(d, k, v)) && View(Put(d, k, v), now) == View(db, now)[k := Entry(v, DeadlineOf(d, k))]
    {
      PutView(d, k, v, now);
    }
  }

  lemma FoundValue(db: Db, k: bytes, now: Time)
    requires WellFormed(db)
    ensures k in View(db, now) ==> k in Purged(db, k, now).prime && Purged(db, k, now).prime[k] == View(db, now)[k].value
  {}

  lemma ExpireView(db: Db, k: bytes, amount: int, unit: nat, now: Time)
    requires WellFormed(db)
    ensures Eagerly(Expire(db, k, amount, unit, now), now, Eager.Expire(View(db, now), now, k, amount, unit))
  {
    hide View, WellFormed, Found, Purged, SetDeadline, Drop, Store;
    var d := Purged(db, k, now);
    PurgedView(db, k, now);
    FoundValue(db, k, now);
    DropView(d, k, now);
    if k in View(db, now) {
      SetDeadlineView(d, k, Wrap64(now + Wrap64(amount * unit)), now);
    }
  }

  lemma ExpireAtView(db: Db, k: bytes, time: int, unit: nat, now: Time)
    requires WellFormed(db)
    ensures Eagerly(ExpireAt(db, k, time, unit, now), now, Eager.ExpireAt(View(db, now), now, k, time, unit))
  {
    hide View, WellFormed, Found, Purged, SetDeadline, Drop;
    var d := Purged(db, k, now);
    PurgedView(db, k, now);
    FoundValue(db, k, now);
    DropView(d, k, now);
    if k in View(db, now) {
      SetDeadlineView(d, k, Wrap64(Wrap64(time) * unit), now);
    }
  }

  lemma PersistView(db: Db, k: bytes, now: Time)
    requires WellFormed(db)
    ensures Eagerly(Persist(db, k, now), now, Eager.Persist(View(db, now), k))
  {
    hide View, WellFormed, Found, Purged, ClearDeadline;
    var d := Purged(db, k, now);
    PurgedView(db, k, now);
    FoundValue(db, k, now);
    ClearDeadlineView(d, k, now);
  }

  lemma TimeToLiveView(db: Db, k: bytes, unit: nat, now: Time)
    requires WellFormed(db) && unit > 0
    ensures Eagerly(TimeToLive(db, k, unit, now), now, Eager.TimeToLive(View(db, now), now, k, unit))
  {
    hide View, WellFormed, Purged;
    PurgedView(db, k, now);
    TtlView(db, k, now);
  }
}
