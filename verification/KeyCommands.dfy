/** The handlers of MGET, MSET, DEL and EXISTS as one shard runs them. */
module KeyCommands {
  import opened Common
  import opened PrimeValues
  import opened Databases
  import opened DbSlices
  import opened KeyOps
  import opened Replies
  import opened RespProtocol
  import C = Commands

  datatype Kind = MGET | MSET | DEL | EXISTS

  /** Every argument of a command is treated alike. */
  predicate Uniform(kind: Kind, items: seq<Item>) { forall j :: 0 <= j < |items| ==> Suits(kind, items[j].op) }

  predicate Suits(kind: Kind, op: Op) {
    match kind
    case MGET => op.Get?
    case MSET => op.Set?
    case DEL => op.Del?
    case EXISTS => op.Exists?
  }

  function Texts(answers: seq<Answer>): (r: seq<Option<bytes>>)
    ensures |r| == |answers|
  {
    seq(|answers|, j requires 0 <= j < |answers| => if answers[j].Value? then answers[j].text else None)
  }

  function Sum(answers: seq<Answer>): (n: nat) {
    if answers == [] then 0 else (if answers[0].Count? then answers[0].n else 0) + Sum(answers[1..])
  }

  const OK_REPLY: bytes := [43, 79, 75, CR, LF]

  /** What the handler prints. */
  function ReplyTo(kind: Kind, db: Db, items: seq<Item>, now: Time): bytes {
    match kind
    case MGET => ArrayReply(Texts(Answers(db, items, now)))
    case MSET => OK_REPLY
    case _ => IntegerReply(Sum(Answers(db, items, now)))
  }

  // ---- One more item ----

  lemma {:induction false} RunMore(db: Db, items: seq<Item>, i: Item, now: Time)
    ensures Run(db, items + [i], now) == Act(Run(db, items, now), i, now)
    ensures Answers(db, items + [i], now) == Answers(db, items, now) + [AnswerOf(Run(db, items, now), i, now)]
    decreases |items|
  {
    hide Act, AnswerOf;
    if items == [] {
      assert items + [i] == [i] && [i][1..] == [];
    } else {
      assert (items + [i])[1..] == items[1..] + [i];
      RunMore(Act(db, items[0], now), items[1..], i, now);
    }
  }

  lemma {:induction false} SumMore(answers: seq<Answer>, a: Answer)
    ensures Sum(answers + [a]) == Sum(answers) + if a.Count? then a.n else 0
  {
    if answers == [] {
      assert answers + [a] == [a] && [a][1..] == [];
    } else {
      assert (answers + [a])[1..] == answers[1..] + [a];
      SumMore(answers[1..], a);
    }
  }

  lemma {:induction false} RepliesMore(vs: seq<Option<bytes>>, v: Option<bytes>)
    ensures OptionReplies(vs + [v]) == OptionReplies(vs) + OptionReply(v)
  {
    hide OptionReply;
    if vs == [] {
      assert vs + [v] == [v] && [v][1..] == [];
    } else {
      assert (vs + [v])[1..] == vs[1..] + [v];
      RepliesMore(vs[1..], v);
    }
  }

  lemma Extended(db: Db, items: seq<Item>, j: nat, now: Time)
    requires j < |items|
    ensures Run(db, items[..j + 1], now) == Act(Run(db, items[..j], now), items[j], now)
    ensures Answers(db, items[..j + 1], now) == Answers(db, items[..j], now) + [AnswerOf(Run(db, items[..j], now), items[j], now)]
  {
    assert items[..j + 1] == items[..j] + [items[j]];
    RunMore(db, items[..j], items[j], now);
  }

  lemma NoneRun(db: Db, items: seq<Item>, now: Time)
    ensures Run(db, items[..0], now) == db && Answers(db, items[..0], now) == []
    ensures Texts([]) == [] && OptionReplies([]) == []
    ensures items[..|items|] == items
  {}

  // ---- The handlers ----

  method CmdMGet(s: DbSlice, i: nat, items: seq<Item>, reply: ReplyBuilder)
    requires s.Valid() && i < 16 && Uniform(MGET, items)
    modifies s`dbs, reply
    ensures s.Valid() && s.dbs == old(s.dbs)[i := Run(old(s.dbs[i]), items, s.now)]
    ensures reply.buf == old(reply.buf) + ReplyTo(MGET, old(s.dbs[i]), items, s.now)
  {
    hide Purged, Found, FromBytes, Header, OptionReplies, NullReply, BulkReply, Run, Answers, Texts;
    ghost var db := s.dbs[i];
    reply.SendArrayLen(|items|);
    ghost var start := reply.buf;
    NoneRun(db, items, s.now);
    for j := 0 to |items|
      invariant s.Valid() && s.dbs == old(s.dbs)[i := Run(db, items[..j], s.now)]
      invariant reply.buf == start + OptionReplies(Texts(Answers(db, items[..j], s.now)))
    {
      ghost var before := Answers(db, items[..j], s.now);
      ghost var was := s.dbs[i];
      Extended(db, items, j, s.now);
      var r := s.Find(i, items[j].key);
      var text := TextOf(r);
      TextsMore(before, text);
      RepliesMore(Texts(before), text);
      if text.Some? {
        reply.SendBulkString(text.value);
      } else {
        reply.SendNull();
      }
    }
    assert start == old(reply.buf) + Header(STAR, |items|);
  }

  lemma TextsMore(answers: seq<Answer>, text: Option<bytes>)
    ensures Texts(answers + [Value(text)]) == Texts(answers) + [text]
  {}

  method CmdDel(s: DbSlice, i: nat, items: seq<Item>, reply: ReplyBuilder)
    requires s.Valid() && i < 16 && Uniform(DEL, items)
    modifies s`dbs, reply
    ensures s.Valid() && s.dbs == old(s.dbs)[i := Run(old(s.dbs[i]), items, s.now)]
    ensures reply.buf == old(reply.buf) + ReplyTo(DEL, old(s.dbs[i]), items, s.now)
  {
    hide Drop, IntegerReply, Run, Answers, Sum;
    ghost var db := s.dbs[i];
    var count := 0;
    NoneRun(db, items, s.now);
    NoneSum();
    for j := 0 to |items|
      invariant s.Valid() && s.dbs == old(s.dbs)[i := Run(db, items[..j], s.now)]
      invariant reply.buf == old(reply.buf) && count == Sum(Answers(db, items[..j], s.now))
    {
      Extended(db, items, j, s.now);
      SumMore(Answers(db, items[..j], s.now), AnswerOf(s.dbs[i], items[j], s.now));
      var removed := s.Del(i, items[j].key);
      if removed {
        count := count + 1;
      }
    }
    reply.SendInteger(count);
  }

  method CmdExists(s: DbSlice, i: nat, items: seq<Item>, reply: ReplyBuilder)
    requires s.Valid() && i < 16 && Uniform(EXISTS, items)
    modifies s`dbs, reply
    ensures s.Valid() && s.dbs == old(s.dbs)[i := Run(old(s.dbs[i]), items, s.now)]
    ensures reply.buf == old(reply.buf) + ReplyTo(EXISTS, old(s.dbs[i]), items, s.now)
  {
    hide Purged, Found, IntegerReply, Run, Answers, Sum;
    ghost var db := s.dbs[i];
    var count := 0;
    NoneRun(db, items, s.now);
    NoneSum();
    for j := 0 to |items|
      invariant s.Valid() && s.dbs == old(s.dbs)[i := Run(db, items[..j], s.now)]
      invariant reply.buf == old(reply.buf) && count == Sum(Answers(db, items[..j], s.now))
    {
      Extended(db, items, j, s.now);
      SumMore(Answers(db, items[..j], s.now), AnswerOf(s.dbs[i], items[j], s.now));
      var found := s.Exists(i, items[j].key);
      if found {
        count := count + 1;
      }
    }
    reply.SendInteger(count);
  }

  lemma NoneSum()
    ensures Sum([]) == 0
  {}

  function Pairs(items: seq<Item>): seq<(bytes, bytes)>
    requires Uniform(MSET, items)
  {
    seq(|items|, j requires 0 <= j < |items| => (items[j].key, items[j].op.data))
  }

  lemma {:induction false} PutEachRuns(db: Db, items: seq<Item>, now: Time)
    requires Uniform(MSET, items)
    ensures C.PutEach(db, Pairs(items)) == Run(db, items, now)
    decreases |items|
  {
    hide FromBytes, Put, ClearDeadline;
    if items != [] {
      var n := |items| - 1;
      assert Pairs(items)[..n] == Pairs(items[..n]);
      PutEachRuns(db, items[..n], now);
      Extended(db, items, n, now);
      assert items[..n + 1] == items;
    }
  }

  /** A command that reaches a shard: the clock is read, then the handler runs to its end. */
  method Dispatch(s: DbSlice, i: nat, kind: Kind, items: seq<Item>, now: Time) returns (buf: bytes)
    requires s.Valid() && i < 16 && Uniform(kind, items)
    modifies s
    ensures s.Valid() && s.dbs == old(s.dbs)[i := Run(old(s.dbs[i]), items, now)]
    ensures buf == ReplyTo(kind, old(s.dbs[i]), items, now)
  {
    hide Run, Answers, IntegerReply, ArrayReply, C.PutEach, FromBytes, View;
    s.UpdateTime(now);
    var reply := new ReplyBuilder([]);
    match kind {
      case MGET => CmdMGet(s, i, items, reply);
      case DEL => CmdDel(s, i, items, reply);
      case EXISTS => CmdExists(s, i, items, reply);
      case MSET =>
        PutEachRuns(s.dbs[i], items, now);
        var _ := C.CmdMSet(s, i, Pairs(items));
        assert s.Valid() && s.dbs == old(s.dbs)[i := s.dbs[i]];
        return OK_REPLY;
    }
    assert [] + ReplyTo(kind, old(s.dbs[i]), items, now) == ReplyTo(kind, old(s.dbs[i]), items, now);
    return reply.buf;
  }
}
