/** What string and expiry commands mean on a store whose keys vanish the moment they expire. */
module EagerCommands {
  import opened Common
  import opened PrimeValues
  import opened Databases

  datatype Reply =
    | Okay
    | Bulk(data: bytes)
    | Null
    | Num(n: int)
    | WrongType
    | NotAnInteger
    | WouldOverflow
    | Incompatible
    | Names(keys: set<bytes>)
    | Elements(items: seq<bytes>)

  datatype Effect = Effect(live: Live, reply: Reply)

  datatype Expiry = Expiry(ms: Time, absolute: bool)

  datatype SetOptions = SetOptions(nx: bool, xx: bool, get: bool, keepTtl: bool, expiry: Option<Expiry>)

  function Deadline(e: Expiry, now: Time): Time { if e.absolute then e.ms else Wrap64(now + e.ms) }

  function OldValue(was: Option<Entry>): Reply { if was.Some? then Bulk(AsBytes(was.value.value)) else Null }

  function Get(l: Live, k: bytes): Effect {
    var was := Peek(l, k);
    Effect(l, if was.Some? && !IsString(was.value.value) then WrongType else OldValue(was))
  }

  function Set(l: Live, now: Time, k: bytes, data: bytes, o: SetOptions): Effect {
    var was := Peek(l, k);
    if o.nx && o.xx then Effect(l, Incompatible)
    else if o.get && was.Some? && !IsString(was.value.value) then Effect(l, WrongType)
    else if (o.nx && was.Some?) || (o.xx && was.None?) then Effect(l, if o.get then OldValue(was) else Null)
    else
      var deadline := if o.expiry.Some? then Some(Deadline(o.expiry.value, now))
                      else if o.keepTtl && was.Some? then was.value.deadline
                      else None;
      Effect(Store(l, now, k, Entry(FromBytes(data), deadline)), if o.get then OldValue(was) else Okay)
  }

  function SetNx(l: Live, now: Time, k: bytes, data: bytes): Effect {
    if k in l then Effect(l, Num(0)) else Effect(l[k := Entry(FromBytes(data), None)], Num(1))
  }

  /** SETEX (unit 1000) and PSETEX (unit 1). */
  function SetEx(l: Live, now: Time, k: bytes, amount: int, unit: nat, data: bytes): Effect {
    if amount <= 0 then Effect(l, NotAnInteger)
    else Effect(Store(l, now, k, Entry(FromBytes(data), Some(Wrap64(now + Wrap64(amount * unit))))), Okay)
  }

  function PutAll(l: Live, pairs: seq<(bytes, bytes)>): Live {
    if pairs == [] then l
    else
      var (k, data) := pairs[|pairs| - 1];
      PutAll(l, pairs[..|pairs| - 1])[k := Entry(FromBytes(data), None)]
  }

  function MSet(l: Live, pairs: seq<(bytes, bytes)>): Effect { Effect(PutAll(l, pairs), Okay) }

  function MSetNx(l: Live, pairs: seq<(bytes, bytes)>): Effect {
    if exists i :: 0 <= i < |pairs| && pairs[i].0 in l then Effect(l, Num(0)) else Effect(PutAll(l, pairs), Num(1))
  }

  function GetSet(l: Live, k: bytes, data: bytes): Effect {
    var was := Peek(l, k);
    if was.Some? && !IsString(was.value.value) then Effect(l, WrongType)
    else Effect(l[k := Entry(FromBytes(data), None)], OldValue(was))
  }

  function GetDel(l: Live, k: bytes): Effect {
    var was := Peek(l, k);
    if was.Some? && !IsString(was.value.value) then Effect(l, WrongType) else Effect(l - {k}, OldValue(was))
  }

  function IncrBy(l: Live, now: Time, k: bytes, delta: int): Effect {
    var was := Peek(l, k);
    var current := if was.Some? then AsInteger(was.value.value) else Some(0);
    if current.None? then Effect(l, NotAnInteger)
    else if !InI64(current.value + delta) then Effect(l, WouldOverflow)
    else
      var n := current.value + delta;
      Effect(l[k := Entry(Integer(n), if was.Some? then was.value.deadline else None)], Num(n))
  }

  function Append(l: Live, k: bytes, data: bytes): Effect {
    var was := Peek(l, k);
    if was.None? then Effect(l[k := Entry(String(data), None)], Num(|data|))
    else if !IsString(was.value.value) then Effect(l, WrongType)
    else
      var text := AsBytes(was.value.value) + data;
      Effect(l[k := Entry(String(text), was.value.deadline)], Num(|text|))
  }

  /** EXPIRE (unit 1000) and PEXPIRE (unit 1). */
  function Expire(l: Live, now: Time, k: bytes, amount: int, unit: nat): Effect {
    if k !in l then Effect(l, Num(0))
    else if amount <= 0 then Effect(l - {k}, Num(1))
    else Effect(Store(l, now, k, l[k].(deadline := Some(Wrap64(now + Wrap64(amount * unit))))), Num(1))
  }

  /** EXPIREAT (unit 1000) and PEXPIREAT (unit 1); a negative time is reinterpreted as a u64. */
  function ExpireAt(l: Live, now: Time, k: bytes, time: int, unit: nat): Effect {
    if k !in l then Effect(l, Num(0))
    else Effect(Store(l, now, k, l[k].(deadline := Some(Wrap64(Wrap64(time) * unit)))), Num(1))
  }

  function Persist(l: Live, k: bytes): Effect {
    if k in l && l[k].deadline.Some? then Effect(l[k := l[k].(deadline := None)], Num(1)) else Effect(l, Num(0))
  }

  /** PTTL; TTL divides by 1000. A time too long for an i64 is reported as negative. */
  function TimeToLive(l: Live, now: Time, k: bytes, unit: nat): Effect
    requires unit > 0
  {
    Effect(l, if k !in l then Num(-2)
              else if l[k].deadline.None? then Num(-1)
              else Num(Remaining(l[k].deadline.value - now, unit)))
  }

  function Remaining(ms: int, unit: nat): int
    requires unit > 0
  {
    if ms < 0 then 0 else ToI64(Wrap64(ms / unit))
  }

  function Keys(l: Live, matches: bytes -> bool): Effect { Effect(l, Names(set k | k in l && matches(k))) }
}
