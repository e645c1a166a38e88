/** The store object of one shard: sixteen databases and a clock. */
module DbSlices {
  import opened Common
  import opened PrimeValues
  import opened Databases

  class DbSlice {
    var dbs: seq<Db>
    var now: Time

    /** Sixteen databases, in each of which only stored keys have deadlines. */
    predicate Valid()
      reads this
    {
      |dbs| == 16 && forall i :: 0 <= i < 16 ==> WellFormed(dbs[i])
    }

    constructor ()
      ensures Valid() && now == 0 && dbs == seq(16, i => EMPTY_DB)
    {
      dbs := seq(16, i => EMPTY_DB);
      now := 0;
    }

    method UpdateTime(t: Time)
      requires Valid()
      modifies this`now
      ensures Valid() && now == t
    {
      now := t;
    }

    /** Remove the key if its deadline has passed. */
    method CheckAndExpire(i: nat, k: bytes) returns (expired: bool)
      requires Valid() && i < 16
      modifies this`dbs
      ensures Valid() && dbs == old(dbs)[i := Purged(old(dbs[i]), k, now)]
      ensures expired <==> Expired(old(dbs[i]), k, now)
    {
      if k in dbs[i].expire {
        if now >= dbs[i].expire[k] {
          var db := dbs[i].(prime := dbs[i].prime - {k});
          dbs := dbs[i := db.(expire := db.expire - {k})];
          return true;
        }
      }
      return false;
    }

    method Find(i: nat, k: bytes) returns (r: Option<PrimeValue>)
      requires Valid() && i < 16
      modifies this`dbs
      ensures Valid() && dbs == old(dbs)[i := Purged(old(dbs[i]), k, now)]
      ensures r == Found(old(dbs[i]), k, now)
    {
      var expired := CheckAndExpire(i, k);
      if expired { return None; }
      return Stored(dbs[i], k);
    }

    method AddOrUpdate(i: nat, k: bytes, v: PrimeValue) returns (added: bool)
      requires Valid() && i < 16
      modifies this`dbs
      ensures Valid() && dbs == old(dbs)[i := Put(old(dbs[i]), k, v)]
      ensures added <==> k !in old(dbs[i]).prime
    {
      added := k !in dbs[i].prime;
      dbs := dbs[i := Put(dbs[i], k, v)];
    }

    method AddIfAbsent(i: nat, k: bytes, v: PrimeValue) returns (added: bool)
      requires Valid() && i < 16
      modifies this`dbs
      ensures Valid() && dbs == old(dbs)[i := PutIfAbsent(old(dbs[i]), k, v, now)]
      ensures added <==> Found(old(dbs[i]), k, now).None?
    {
      var expired := CheckAndExpire(i, k);
      if !expired && k in dbs[i].prime {
        return false;
      }
      var _ := AddOrUpdate(i, k, v);
      return true;
    }

    method Del(i: nat, k: bytes) returns (removed: bool)
      requires Valid() && i < 16
      modifies this`dbs
      ensures Valid() && dbs == old(dbs)[i := Drop(old(dbs[i]), k)]
      ensures removed <==> k in old(dbs[i]).prime
    {
      removed := k in dbs[i].prime;
      dbs := dbs[i := Drop(dbs[i], k)];
    }

    method Exists(i: nat, k: bytes) returns (r: bool)
      requires Valid() && i < 16
      modifies this`dbs
      ensures Valid() && dbs == old(dbs)[i := Purged(old(dbs[i]), k, now)]
      ensures r <==> Found(old(dbs[i]), k, now).Some?
    {
      var f := Find(i, k);
      return f.Some?;
    }

    method AddExpire(i: nat, k: bytes, deadline: Time)
      requires Valid() && i < 16
      modifies this`dbs
      ensures Valid() && dbs == old(dbs)[i := SetDeadline(old(dbs[i]), k, deadline)]
    {
      if k in dbs[i].prime {
        dbs := dbs[i := dbs[i].(expire := dbs[i].expire[k := deadline])];
      }
    }

    method RemoveExpire(i: nat, k: bytes) returns (removed: bool)
      requires Valid() && i < 16
      modifies this`dbs
      ensures Valid() && dbs == old(dbs)[i := ClearDeadline(old(dbs[i]), k)]
      ensures removed <==> k in old(dbs[i]).expire
    {
      removed := k in dbs[i].expire;
      dbs := dbs[i := dbs[i].(expire := dbs[i].expire - {k})];
    }

    method TtlMs(i: nat, k: bytes) returns (r: Ttl)
      requires Valid() && i < 16
      modifies this`dbs
      ensures Valid() && dbs == old(dbs)[i := if k in old(dbs[i]).prime then Purged(old(dbs[i]), k, now) else old(dbs[i])]
      ensures r == TtlOf(old(dbs[i]), k, now)
    {
      var db := dbs[i];
      if k !in db.prime { return KeyNotFound; }
      if k in db.expire {
        if now >= db.expire[k] {
          dbs := dbs[i := Drop(db, k)];
          return KeyNotFound;
        }
        return Expires(db.expire[k] - now);
      }
      return NoExpiry;
    }

    /** Move a value and its deadline to another name, replacing what was there. */
    method Rename(i: nat, from: bytes, to: bytes) returns (ok: bool)
      requires Valid() && i < 16
      modifies this`dbs
      ensures Valid() && dbs == old(dbs)[i := Renamed(old(dbs[i]), from, to)]
      ensures ok <==> from in old(dbs[i]).prime
    {
      var db := dbs[i];
      var had := from in db.expire;
      var deadline := if had then db.expire[from] else 0;
      var expire := db.expire - {from};
      if from !in db.prime {
        dbs := dbs[i := db.(expire := expire)];
        return false;
      }
      var value := db.prime[from];
      var prime := db.prime - {from};
      expire := expire - {to};
      prime := prime[to := value];
      if had {
        expire := expire[to := deadline];
      }
      dbs := dbs[i := Db(prime, expire)];
      return true;
    }

    /**
     The live keys that match, in the order the table is iterated; expired keys met on the way are
     removed. `order` lists the stored keys in iteration order.
     */
    method Keys(i: nat, matches: bytes -> bool, order: seq<bytes>) returns (result: seq<bytes>)
      requires Valid() && i < 16 && Enumerates(order, dbs[i].prime.Keys)
      modifies this`dbs
      ensures Valid() && dbs == old(dbs)[i := dbs[i]]
      ensures View(dbs[i], now) == old(View(dbs[i], now))
      ensures Enumerates(result, set k | k in View(old(dbs[i]), now) && matches(k))
    {
      var db := dbs[i];
      var expired := [];
      result := [];
      for j := 0 to |order|
        invariant forall k :: k in result <==> k in order[..j] && !Expired(db, k, now) && matches(k)
        invariant forall k :: k in expired <==> k in order[..j] && Expired(db, k, now)
        invariant Distinct(result)
      {
        var k := order[j];
        assert k !in order[..j];
        if k in db.expire && now >= db.expire[k] {
          expired := expired + [k];
          continue;
        }
        if matches(k) {
          result := result + [k];
        }
      }
      assert order[..|order|] == order;
      assert forall k :: k in result <==> k in View(db, now) && matches(k);
      RemoveAll(i, expired);
    }

    /** Look at the first `count` deadlines in table order and remove the expired keys among them. */
    method ExpireSweep(i: nat, count: nat, order: seq<bytes>) returns (removed: nat)
      requires Valid() && i < 16 && Enumerates(order, dbs[i].expire.Keys)
      modifies this`dbs
      ensures Valid() && dbs == old(dbs)[i := dbs[i]]
      ensures View(dbs[i], now) == old(View(dbs[i], now))
      ensures forall k :: k in dbs[i].prime <==>
                k in old(dbs[i]).prime && !(k in order[..if count < |order| then count else |order|] && Expired(old(dbs[i]), k, now))
      ensures removed == |set k | k in order[..if count < |order| then count else |order|] && Expired(old(dbs[i]), k, now)|
    {
      var n := if count < |order| then count else |order|;
      var expired := [];
      for j := 0 to n
        invariant forall k :: k in expired <==> k in order[..j] && Expired(dbs[i], k, now)
        invariant dbs == old(dbs) && Distinct(expired)
      {
        assert order[j] !in order[..j];
        if now >= dbs[i].expire[order[j]] {
          expired := expired + [order[j]];
        }
      }
      removed := |expired|;
      DistinctSize(expired, set k | k in order[..n] && Expired(dbs[i], k, now));
      RemoveAll(i, expired);
    }

    /** Remove keys that are all expired; no live key is touched. */
    method RemoveAll(i: nat, gone: seq<bytes>)
      requires Valid() && i < 16 && forall k :: k in gone ==> Expired(dbs[i], k, now)
      modifies this`dbs
      ensures Valid() && dbs == old(dbs)[i := dbs[i]]
      ensures View(dbs[i], now) == old(View(dbs[i], now))
      ensures forall k :: k in dbs[i].prime <==> k in old(dbs[i]).prime && k !in gone
    {
      var start := dbs[i];
      for j := 0 to |gone|
        invariant |dbs| == 16 && dbs == old(dbs)[i := dbs[i]]
        invariant dbs[i].prime == start.prime - (set k | k in gone[..j])
        invariant dbs[i].expire == start.expire - (set k | k in gone[..j])
      {
        dbs := dbs[i := Drop(dbs[i], gone[j])];
      }
      assert gone[..|gone|] == gone;
      forall k | k in gone ensures k !in View(start, now) {
        assert Expired(start, k, now);
      }
    }
  }

  predicate Distinct<T(==)>(s: seq<T>) { forall i, j :: 0 <= i < j < |s| ==> s[i] != s[j] }

  /** The sequence lists each element of the set once. */
  ghost predicate Enumerates(s: seq<bytes>, keys: set<bytes>) { Distinct(s) && forall k :: k in s <==> k in keys }

  lemma {:induction false} DistinctSize(s: seq<bytes>, keys: set<bytes>)
    requires Enumerates(s, keys)
    ensures |s| == |keys|
  {
    if s == [] {
      assert keys == {};
    } else {
      var n := |s| - 1;
      var front, last := s[..n], s[n];
      assert s == front + [last];
      assert last in s;
      forall k
        ensures k in front <==> k in keys - {last}
      {
        if k in front {
          var j :| 0 <= j < n && front[j] == k;
          assert s[j] == k && k in s;
        }
        if k in keys && k != last {
          assert k in s;
        }
      }
      DistinctSize(front, keys - {last});
    }
  }
}
