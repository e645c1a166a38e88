/**
 What clients may rely on, command by command, told by what GET, PTTL and other commands answer
 afterwards. The store is the eagerly expiring one, which the handlers are proved to follow.
 */
module CommandLaws {
  import opened Common
  import opened Decimal
  import opened PrimeValues
  import opened Databases
  import opened EagerCommands
  import L = Lifetimes

  /** Nothing but `k` changed. */
  ghost predicate OnlyAt(before: Live, after: Live, k: bytes) { forall j :: j != k ==> Peek(after, j) == Peek(before, j) }

  /** `k` now holds these bytes for good. */
  ghost predicate Holds(l: Live, k: bytes, data: bytes, now: Time) {
    Get(l, k).reply == Bulk(data) && TimeToLive(l, now, k, 1).reply == Num(-1)
  }

  /** Without GET, SET says whether it wrote; with GET it answers what GET answered before. */
  lemma SetReply(l: Live, now: Time, k: bytes, data: bytes, o: SetOptions)
    ensures var e := Set(l, now, k, data, o);
            && OnlyAt(l, e.live, k)
            && (e.reply == Incompatible <==> o.nx && o.xx)
            && (!(o.nx && o.xx) && o.get ==> e.reply == Get(l, k).reply)
            && (!(o.nx && o.xx) && !o.get ==> e.reply == if L.Writes(l, k, o) then Okay else Null)
            && (!L.Writes(l, k, o) ==> e.live == l)
            && (L.Writes(l, k, o) && o.expiry.None? && !o.keepTtl ==> Holds(e.live, k, data, now))
  {
    BytesRoundTrip(data);
    hide FromBytes, AsBytes;
  }

  /** SETNX answers 1 exactly if the key was not there, and then holds its bytes. */
  lemma SetNxLaw(l: Live, now: Time, k: bytes, data: bytes)
    ensures var e := SetNx(l, now, k, data);
            && OnlyAt(l, e.live, k)
            && if Get(l, k).reply == Null then e.reply == Num(1) && Holds(e.live, k, data, now) else e.reply == Num(0) && e.live == l
  {
    BytesRoundTrip(data);
    hide FromBytes, AsBytes;
  }

  /** GETSET answers as GET would, and then the key holds the new bytes without a deadline. */
  lemma GetSetLaw(l: Live, now: Time, k: bytes, data: bytes)
    ensures var e := GetSet(l, k, data);
            && OnlyAt(l, e.live, k) && e.reply == Get(l, k).reply
            && if e.reply == WrongType then e.live == l else Holds(e.live, k, data, now)
  {
    BytesRoundTrip(data);
    hide FromBytes, AsBytes;
  }

  /** GETDEL answers as GET would, and a string is then gone. */
  lemma GetDelLaw(l: Live, k: bytes)
    ensures var e := GetDel(l, k);
            && OnlyAt(l, e.live, k) && e.reply == Get(l, k).reply
            && if e.reply == WrongType then e.live == l else Get(e.live, k).reply == Null
  {
    hide AsBytes;
  }

  /** APPEND continues the bytes that GET showed, leaves the deadline, and answers the new length. */
  lemma AppendLaw(l: Live, now: Time, k: bytes, data: bytes)
    ensures var e, was := Append(l, k, data), Get(l, k).reply;
            var text := (if was.Bulk? then was.data else []) + data;
            && OnlyAt(l, e.live, k)
            && if was == WrongType then e.live == l && e.reply == WrongType
               else
                 && Get(e.live, k).reply == Bulk(text) && e.reply == Num(|text|)
                 && (was.Bulk? ==> e.live[k].deadline == l[k].deadline)
  {
    assert [] + data == data;
    hide ToDecimal;
  }

  /**
   INCRBY takes what GET answered for a number, nil for 0 and text as it parses. It adds to that, GET then
   answers the text of the sum, and the deadline stays. Anything else, or a sum outside i64, is refused.
   */
  lemma IncrByLaw(l: Live, now: Time, k: bytes, delta: int)
    requires k in l && l[k].value.Integer? ==> InI64(l[k].value.n)
    ensures var e, was := IncrBy(l, now, k, delta), Get(l, k).reply;
            var n := if was == Null then Some(0) else if was.Bulk? then ParseTrimmed(was.data) else None;
            && OnlyAt(l, e.live, k)
            && if n.None? then e.live == l && e.reply == NotAnInteger
               else if !InI64(n.value + delta) then e.live == l && e.reply == WouldOverflow
               else
                 && e.reply == Num(n.value + delta) && Get(e.live, k).reply == Bulk(ToDecimal(n.value + delta))
                 && (k in l ==> e.live[k].deadline == l[k].deadline)
  {
    hide ToDecimal, ParseTrimmed;
    if k in l {
      hide AsInteger;
      IntegerOfBytes(l[k].value);
    }
  }

  /** PERSIST answers 1 exactly if there was a deadline, and then there is none. */
  lemma PersistLaw(l: Live, now: Time, k: bytes)
    ensures var e := Persist(l, k);
            && OnlyAt(l, e.live, k) && Get(e.live, k).reply == Get(l, k).reply
            && (e.reply == Num(1) <==> k in l && l[k].deadline.Some?) && (e.reply == Num(0) <==> e.live == l)
            && (k in l ==> TimeToLive(e.live, now, k, 1).reply == Num(-1))
  {
    hide AsBytes;
  }

  /** EXPIRE answers 1 exactly on a live key. A count that is not positive removes it. */
  lemma ExpireLaw(l: Live, now: Time, k: bytes, amount: int, unit: nat)
    ensures var e := Expire(l, now, k, amount, unit);
            && OnlyAt(l, e.live, k)
            && if k !in l then e.reply == Num(0) && e.live == l
               else e.reply == Num(1) && (amount <= 0 ==> k !in e.live)
  {}

  /** KEYS names exactly the live keys that match. */
  lemma KeysLaw(l: Live, matches: bytes -> bool, k: bytes)
    ensures Keys(l, matches).live == l
    ensures k in Keys(l, matches).reply.keys <==> k in l && matches(k)
  {}

  /** MSET: every key holds the last bytes given for it, for good. */
  lemma {:induction false} MSetLaw(l: Live, pairs: seq<(bytes, bytes)>, i: nat, now: Time)
    requires i < |pairs| && forall j :: i < j < |pairs| ==> pairs[j].0 != pairs[i].0
    ensures MSet(l, pairs).reply == Okay && Holds(MSet(l, pairs).live, pairs[i].0, pairs[i].1, now)
    decreases |pairs|
  {
    hide FromBytes, AsBytes;
    var n := |pairs| - 1;
    if i == n {
      BytesRoundTrip(pairs[n].1);
    } else {
      var front := pairs[..n];
      assert front[i] == pairs[i] && forall j :: i < j < n ==> front[j] == pairs[j];
      MSetLaw(l, front, i, now);
      assert pairs[n].0 != pairs[i].0;
      assert Peek(PutAll(l, pairs), pairs[i].0) == Peek(PutAll(l, front), pairs[i].0);
    }
  }

  /** Keys that are not named are left alone. */
  lemma {:induction false} MSetElsewhere(l: Live, pairs: seq<(bytes, bytes)>, k: bytes)
    requires forall i :: 0 <= i < |pairs| ==> pairs[i].0 != k
    ensures Peek(MSet(l, pairs).live, k) == Peek(l, k)
    decreases |pairs|
  {
    hide FromBytes;
    if pairs != [] {
      MSetElsewhere(l, pairs[..|pairs| - 1], k);
    }
  }

  /** MSETNX answers 1 and does what MSET does exactly if none of its keys is there. */
  lemma MSetNxLaw(l: Live, pairs: seq<(bytes, bytes)>)
    ensures var e := MSetNx(l, pairs);
            if forall i :: 0 <= i < |pairs| ==> Get(l, pairs[i].0).reply == Null
            then e.reply == Num(1) && e.live == MSet(l, pairs).live else e.reply == Num(0) && e.live == l
  {
    hide AsBytes, PutAll;
    assert forall i :: 0 <= i < |pairs| ==> (Get(l, pairs[i].0).reply == Null <==> pairs[i].0 !in l);
  }
}
