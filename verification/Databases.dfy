/** One database: a table of values and a table of deadlines, with keys expiring lazily. */
module Databases {
  import opened Common
  import opened PrimeValues

  datatype Db = Db(prime: map<bytes, PrimeValue>, expire: map<bytes, Time>)

  const EMPTY_DB := Db(map[], map[])

  /** Only stored keys have deadlines. */
  predicate WellFormed(db: Db) { forall k :: k in db.expire ==> k in db.prime }

  predicate Expired(db: Db, k: bytes, now: Time) { k in db.expire && now >= db.expire[k] }

  function Drop(db: Db, k: bytes): Db { Db(db.prime - {k}, db.expire - {k}) }

  function Purged(db: Db, k: bytes, now: Time): Db { if Expired(db, k, now) then Drop(db, k) else db }

  function Stored(db: Db, k: bytes): Option<PrimeValue> { if k in db.prime then Some(db.prime[k]) else None }

  /** What `find` returns and leaves behind. */
  function Found(db: Db, k: bytes, now: Time): Option<PrimeValue> { Stored(Purged(db, k, now), k) }

  function Put(db: Db, k: bytes, v: PrimeValue): Db { db.(prime := db.prime[k := v]) }

  function PutIfAbsent(db: Db, k: bytes, v: PrimeValue, now: Time): Db {
    if Found(db, k, now).Some? then db else Put(Purged(db, k, now), k, v)
  }

  function SetDeadline(db: Db, k: bytes, deadline: Time): Db {
    if k in db.prime then db.(expire := db.expire[k := deadline]) else db
  }

  function ClearDeadline(db: Db, k: bytes): Db { db.(expire := db.expire - {k}) }

  datatype Ttl = KeyNotFound | NoExpiry | Expires(ms: Time)

  function TtlOf(db: Db, k: bytes, now: Time): Ttl {
    if k !in db.prime then KeyNotFound
    else if k !in db.expire then NoExpiry
    else if now >= db.expire[k] then KeyNotFound
    else Expires(db.expire[k] - now)
  }

  function Renamed(db: Db, from: bytes, to: bytes): Db {
    var expire := db.expire - {from};
    if from !in db.prime then db.(expire := expire)
    else
      var prime := (db.prime - {from})[to := db.prime[from]];
      var expire := expire - {to};
      Db(prime, if from in db.expire then expire[to := db.expire[from]] else expire)
  }

  // ---- What an eagerly expiring store would hold ----

  datatype Entry = Entry(value: PrimeValue, deadline: Option<Time>)

  type Live = map<bytes, Entry>

  function DeadlineOf(db: Db, k: bytes): Option<Time> { if k in db.expire then Some(db.expire[k]) else None }

  function EntryAt(db: Db, k: bytes): Entry
    requires k in db.prime
  {
    Entry(db.prime[k], DeadlineOf(db, k))
  }

  /** Exactly the keys whose deadline has not come. */
  function View(db: Db, now: Time): Live { map k | k in db.prime && !Expired(db, k, now) :: EntryAt(db, k) }

  predicate Alive(e: Entry, now: Time) { e.deadline.Some? ==> now < e.deadline.value }

  function Purge(l: Live, now: Time): Live { map k | k in l && Alive(l[k], now) :: l[k] }

  /** Store an entry; one whose deadline has already passed is gone at once. */
  function Store(l: Live, now: Time, k: bytes, e: Entry): Live { if Alive(e, now) then l[k := e] else l - {k} }

  function Peek(l: Live, k: bytes): Option<Entry> { if k in l then Some(l[k]) else None }

  /** Time passing is the only thing that removes entries by itself. */
  lemma TimePasses(db: Db, now: Time, later: Time)
    requires now <= later
    ensures View(db, later) == Purge(View(db, now), later)
  {
  }

  // ---- The table operations, seen through the view ----

  lemma PurgedView(db: Db, k: bytes, now: Time)
    requires WellFormed(db)
    ensures WellFormed(Purged(db, k, now)) && View(Purged(db, k, now), now) == View(db, now)
    ensures !Expired(Purged(db, k, now), k, now)
    ensures Found(db, k, now) == (if k in View(db, now) then Some(View(db, now)[k].value) else None)
    ensures DeadlineOf(Purged(db, k, now), k) == (if k in View(db, now) then View(db, now)[k].deadline else None)
    ensures k in Purged(db, k, now).prime <==> k in View(db, now)
  {
  }

  lemma PutView(db: Db, k: bytes, v: PrimeValue, now: Time)
    requires WellFormed(db)
    ensures WellFormed(Put(db, k, v))
    ensures View(Put(db, k, v), now) == Store(View(db, now), now, k, Entry(v, DeadlineOf(db, k)))
  {
  }

  lemma SetDeadlineView(db: Db, k: bytes, deadline: Time, now: Time)
    requires WellFormed(db) && k in db.prime
    ensures WellFormed(SetDeadline(db, k, deadline))
    ensures View(SetDeadline(db, k, deadline), now) == Store(View(db, now), now, k, Entry(db.prime[k], Some(deadline)))
  {
  }

  lemma ClearDeadlineView(db: Db, k: bytes, now: Time)
    requires WellFormed(db)
    ensures WellFormed(ClearDeadline(db, k))
    ensures View(ClearDeadline(db, k), now) ==
            if k in db.prime then Store(View(db, now), now, k, Entry(db.prime[k], None)) else View(db, now)
  {
  }

  lemma PutWithDeadline(db: Db, k: bytes, v: PrimeValue, deadline: Time, now: Time)
    requires WellFormed(db)
    ensures WellFormed(SetDeadline(Put(db, k, v), k, deadline))
    ensures View(SetDeadline(Put(db, k, v), k, deadline), now) == Store(View(db, now), now, k, Entry(v, Some(deadline)))
  {
  }

  lemma PutWithoutDeadline(db: Db, k: bytes, v: PrimeValue, now: Time)
    requires WellFormed(db)
    ensures WellFormed(ClearDeadline(Put(db, k, v), k))
    ensures View(ClearDeadline(Put(db, k, v), k), now) == View(db, now)[k := Entry(v, None)]
  {
  }

  lemma DropView(db: Db, k: bytes, now: Time)
    requires WellFormed(db)
    ensures WellFormed(Drop(db, k)) && View(Drop(db, k), now) == View(db, now) - {k}
  {
  }

  lemma TtlView(db: Db, k: bytes, now: Time)
    requires WellFormed(db)
    ensures TtlOf(db, k, now) ==
            if k !in View(db, now) then KeyNotFound
            else if View(db, now)[k].deadline.None? then NoExpiry
            else Expires(View(db, now)[k].deadline.value - now)
  {
  }
}
