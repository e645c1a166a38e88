/** How long a key lives after the commands that set a deadline, at every later time. */
module Lifetimes {
  import opened Common
  import opened PrimeValues
  import opened Databases
  import opened EagerCommands
  import H = Handlers

  const U64_END := 0x1_0000_0000_0000_0000

  /** Seen with this value before `until`, and from then on not at all. */
  ghost predicate LivesUntil(db: Db, k: bytes, v: PrimeValue, until: int) {
    forall t: Time :: if t < until then k in View(db, t) && View(db, t)[k].value == v else k !in View(db, t)
  }

  ghost predicate LivesOn(db: Db, k: bytes, v: PrimeValue) {
    forall t: Time :: k in View(db, t) && View(db, t)[k].value == v
  }

  ghost predicate Gone(db: Db, k: bytes) { forall t: Time :: k !in View(db, t) }

  /** The time `ms` milliseconds from now, in 64 bits. */
  ghost predicate LivesFor(db: Db, k: bytes, v: PrimeValue, now: Time, ms: Time) {
    LivesUntil(db, k, v, if now + ms < U64_END then now + ms else now + ms - U64_END)
  }

  lemma DatedLives(db: Db, k: bytes, v: PrimeValue, until: Time)
    requires k in db.prime && db.prime[k] == v && k in db.expire && db.expire[k] == until
    ensures LivesUntil(db, k, v, until)
  {}

  lemma UndatedLives(db: Db, k: bytes, v: PrimeValue)
    requires k in db.prime && db.prime[k] == v && k !in db.expire
    ensures LivesOn(db, k, v)
  {}

  lemma AbsentGone(db: Db, k: bytes)
    requires k !in db.prime
    ensures Gone(db, k)
  {}

  /** Sums beyond 64 bits wrap around once. */
  lemma WrapOnce(now: Time, ms: Time)
    ensures Wrap64(now + ms) == if now + ms < U64_END then now + ms else now + ms - U64_END
  {}

  // ---- SET ----

  /** The key is written: neither NX nor XX forbids it, and GET finds no collection. */
  predicate Writes(l: Live, k: bytes, o: SetOptions) {
    && !(o.nx && o.xx) && !(o.nx && k in l) && !(o.xx && k !in l)
    && !(o.get && k in l && !IsString(l[k].value))
  }

  /** What SET leaves, at every time: `before` is the view it found. */
  ghost predicate SetLives(before: Live, after: Db, k: bytes, v: PrimeValue, o: SetOptions, now: Time) {
    if o.expiry.Some? then
      if o.expiry.value.absolute then LivesUntil(after, k, v, o.expiry.value.ms) else LivesFor(after, k, v, now, o.expiry.value.ms)
    else if o.keepTtl && k in before && before[k].deadline.Some? then LivesUntil(after, k, v, before[k].deadline.value)
    else LivesOn(after, k, v)
  }

  lemma SetBodyLives(db: Db, k: bytes, data: bytes, o: SetOptions, kept: Option<Time>, now: Time)
    requires WellFormed(db) && (o.keepTtl ==> kept == DeadlineOf(db, k)) && (!o.keepTtl ==> kept.None?)
    ensures var after, v := H.SetBody(db, k, data, o, kept, now), FromBytes(data);
            if o.expiry.Some? then
              if o.expiry.value.absolute then LivesUntil(after, k, v, o.expiry.value.ms) else LivesFor(after, k, v, now, o.expiry.value.ms)
            else if kept.Some? then LivesUntil(after, k, v, kept.value)
            else LivesOn(after, k, v)
  {
    hide FromBytes, LivesUntil, LivesOn;
    var after, v := H.SetBody(db, k, data, o, kept, now), FromBytes(data);
    if o.expiry.Some? {
      WrapOnce(now, o.expiry.value.ms);
      DatedLives(after, k, v, after.expire[k]);
    } else if kept.Some? {
      DatedLives(after, k, v, kept.value);
    } else {
      UndatedLives(after, k, v);
    }
  }

  /** A SET that writes leaves its bytes until the deadline asked for, to the millisecond; another leaves what was there. */
  lemma SetLifetime(db: Db, k: bytes, data: bytes, o: SetOptions, now: Time)
    requires WellFormed(db)
    ensures var l, after := View(db, now), H.Set(db, k, data, o, now).db;
            if Writes(l, k, o) then SetLives(l, after, k, FromBytes(data), o, now) else View(after, now) == l
    ensures IsString(FromBytes(data)) && AsBytes(FromBytes(data)) == data
  {
    BytesRoundTrip(data);
    hide View, FromBytes, AsBytes, WellFormed, Found, Purged, H.SetBody, H.Kept, DeadlineOf, Expired, LivesUntil, LivesFor, LivesOn;
    PurgedView(db, k, now);
    var d := Purged(db, k, now);
    H.KeptIs(d, k, o, now);
    SetBodyLives(d, k, data, o, H.Kept(d, k, o, now), now);
  }

  // ---- SETEX and EXPIRE ----

  lemma SetExLifetime(db: Db, k: bytes, amount: int, unit: nat, data: bytes, now: Time)
    requires WellFormed(db) && 0 < amount && amount * unit < U64_END
    ensures LivesFor(H.SetEx(db, k, amount, unit, data, now).db, k, FromBytes(data), now, amount * unit)
  {
    hide FromBytes, LivesUntil;
    WrapOnce(now, amount * unit);
    var after := H.SetEx(db, k, amount, unit, data, now).db;
    DatedLives(after, k, FromBytes(data), after.expire[k]);
  }

  /** A live key keeps its value for `amount` units from `now` on, or is gone at once if that is not positive. */
  ghost predicate Dated(l: Live, after: Db, k: bytes, amount: int, unit: nat, now: Time) {
    k in l && amount * unit < U64_END ==>
      if amount <= 0 then Gone(after, k) else LivesFor(after, k, l[k].value, now, amount * unit)
  }

  lemma ExpireLifetime(db: Db, k: bytes, amount: int, unit: nat, now: Time)
    requires WellFormed(db)
    ensures Dated(View(db, now), H.Expire(db, k, amount, unit, now).db, k, amount, unit, now)
  {
    hide LivesUntil, Gone;
    var after := H.Expire(db, k, amount, unit, now).db;
    if k in View(db, now) && amount * unit < U64_END {
      if amount <= 0 {
        AbsentGone(after, k);
      } else {
        WrapOnce(now, amount * unit);
        DatedLives(after, k, db.prime[k], after.expire[k]);
      }
    }
  }

  /** EXPIREAT: until that time, which takes a live key away at once if it is not in the future. */
  lemma ExpireAtLifetime(db: Db, k: bytes, time: nat, unit: nat, now: Time)
    requires WellFormed(db) && k in View(db, now) && time < U64_END && time * unit < U64_END
    ensures var after := H.ExpireAt(db, k, time, unit, now).db;
            if time * unit <= now then Gone(after, k) else LivesUntil(after, k, View(db, now)[k].value, time * unit)
  {
    hide LivesUntil, Gone;
    var after := H.ExpireAt(db, k, time, unit, now).db;
    if time * unit <= now {
      AbsentGone(after, k);
    } else {
      DatedLives(after, k, db.prime[k], time * unit);
    }
  }

  /** PERSIST: a live key stays for good. */
  lemma PersistLifetime(db: Db, k: bytes, now: Time)
    requires WellFormed(db) && k in View(db, now)
    ensures LivesOn(H.Persist(db, k, now).db, k, View(db, now)[k].value)
  {
    hide LivesOn;
    UndatedLives(H.Persist(db, k, now).db, k, db.prime[k]);
  }

  // ---- What TTL and PTTL say ----

  /** Before the end PTTL answers the milliseconds left, cast to i64, and TTL the whole seconds; afterwards both -2. */
  ghost predicate Counts(pttl: Reply, ttl: Reply, left: int) {
    if left <= 0 then pttl == Num(-2) && ttl == Num(-2)
    else
      && pttl == Num(if left <= I64_MAX then left else left - U64_END)
      && ttl.Num? && 1000 * ttl.n <= left < 1000 * ttl.n + 1000
  }

  lemma DeadlineThen(db: Db, k: bytes, v: PrimeValue, until: Time, t: Time)
    requires LivesUntil(db, k, v, until) && t < until
    ensures k in View(db, t) && View(db, t)[k].deadline == Some(until)
  {
    var last: Time := until - 1;
    assert k in View(db, t) && k in View(db, last) && k !in View(db, until);
  }

  lemma Countdown(db: Db, k: bytes, v: PrimeValue, until: Time, t: Time)
    requires WellFormed(db) && LivesUntil(db, k, v, until)
    ensures Counts(H.TimeToLive(db, k, 1, t).reply, H.TimeToLive(db, k, 1000, t).reply, until - t)
  {
    assert t >= until ==> k !in View(db, t);
    hide View, LivesUntil, WellFormed, Purged;
    TtlView(db, k, t);
    if t < until {
      DeadlineThen(db, k, v, until, t);
      SecondsLeft(until - t);
    }
  }

  lemma SecondsLeft(ms: Time)
    ensures Remaining(ms, 1) == (if ms <= I64_MAX then ms else ms - U64_END)
    ensures 1000 * Remaining(ms, 1000) <= ms < 1000 * Remaining(ms, 1000) + 1000
  {}

  lemma NoCountdown(db: Db, k: bytes, v: PrimeValue, t: Time)
    requires WellFormed(db) && LivesOn(db, k, v)
    ensures H.TimeToLive(db, k, 1, t).reply == H.TimeToLive(db, k, 1000, t).reply == Num(-1)
  {
    NoDeadline(db, k, v, t);
    hide View, LivesOn, WellFormed, Purged;
    TtlView(db, k, t);
  }

  lemma NoDeadline(db: Db, k: bytes, v: PrimeValue, t: Time)
    requires LivesOn(db, k, v)
    ensures k in View(db, t) && View(db, t)[k].deadline.None?
  {
    EndsThen(db, k);
    assert k in View(db, t);
  }

  lemma EndsThen(db: Db, k: bytes)
    ensures forall t: Time :: DeadlineOf(db, k) == Some(t) ==> k !in View(db, t)
  {}
}
