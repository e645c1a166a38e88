/** RESP replies as bytes, the builder that appends them, and commands printed as arrays of bulk strings. */
module Replies {
  import opened Common
  import Collect
  import opened Decimal
  import opened RespProtocol

  function Header(kind: byte, n: int): bytes { [kind] + ToDecimal(n) + CRLF }

  function BulkReply(data: bytes): bytes { Header(DOLLAR, |data|) + data + CRLF }

  function NullReply(): bytes { [DOLLAR, MINUS, 49, CR, LF] }

  function IntegerReply(n: int): bytes { Header(COLON, n) }

  function OptionReply(v: Option<bytes>): bytes { if v.Some? then BulkReply(v.value) else NullReply() }

  function OptionReplies(vs: seq<Option<bytes>>): bytes {
    if vs == [] then [] else OptionReply(vs[0]) + OptionReplies(vs[1..])
  }

  /** An array of optional bulk strings: the reply of MGET and of KEYS. */
  function ArrayReply(vs: seq<Option<bytes>>): bytes { Header(STAR, |vs|) + OptionReplies(vs) }

  function BulkReplies(items: seq<bytes>): bytes {
    if items == [] then [] else BulkReply(items[0]) + BulkReplies(items[1..])
  }

  /** A command as a client prints it. */
  function StringArray(items: seq<bytes>): bytes { Header(STAR, |items|) + BulkReplies(items) }

  class ReplyBuilder {
    var buf: bytes

    constructor (buf: bytes)
      ensures this.buf == buf
    {
      this.buf := buf;
    }

    method WriteInt(n: int)
      modifies this
      ensures buf == old(buf) + ToDecimal(n)
    {
      buf := buf + ToDecimal(n);
    }

    method SendBulkString(data: bytes)
      modifies this
      ensures buf == old(buf) + BulkReply(data)
    {
      buf := buf + [DOLLAR];
      WriteInt(|data|);
      buf := buf + CRLF;
      buf := buf + data;
      buf := buf + CRLF;
    }

    method SendNull()
      modifies this
      ensures buf == old(buf) + NullReply()
    {
      buf := buf + [DOLLAR, MINUS, 49, CR, LF];
    }

    method SendInteger(n: int)
      modifies this
      ensures buf == old(buf) + IntegerReply(n)
    {
      buf := buf + [COLON];
      WriteInt(n);
      buf := buf + CRLF;
    }

    method SendArrayLen(n: nat)
      modifies this
      ensures buf == old(buf) + Header(STAR, n)
    {
      buf := buf + [STAR];
      WriteInt(n);
      buf := buf + CRLF;
    }

    method SendStringArray(items: seq<bytes>)
      modifies this
      ensures buf == old(buf) + StringArray(items)
    {
      hide Header, BulkReply;
      SendArrayLen(|items|);
      ghost var start := buf;
      for i := 0 to |items|
        invariant buf + BulkReplies(items[i..]) == start + BulkReplies(items)
      {
        SendBulkString(items[i]);
        assert items[i..][1..] == items[i + 1..];
      }
      assert items[|items|..] == [] && buf + [] == buf;
      assert start + BulkReplies(items) == old(buf) + (Header(STAR, |items|) + BulkReplies(items));
    }

    /** The array of optional values that MGET replies with. */
    method SendOptions(vs: seq<Option<bytes>>)
      modifies this
      ensures buf == old(buf) + ArrayReply(vs)
    {
      hide Header, BulkReply, NullReply;
      SendArrayLen(|vs|);
      ghost var start := buf;
      for i := 0 to |vs|
        invariant buf + OptionReplies(vs[i..]) == start + OptionReplies(vs)
      {
        match vs[i] {
          case Some(v) => SendBulkString(v);
          case None => SendNull();
        }
        assert vs[i..][1..] == vs[i + 1..];
      }
      assert vs[|vs|..] == [] && buf + [] == buf;
      assert start + OptionReplies(vs) == old(buf) + (Header(STAR, |vs|) + OptionReplies(vs));
    }
  }

  // ---- Printed commands parse back ----

  function Strs(items: seq<bytes>): Args {
    if items == [] then [] else [Str(items[0])] + Strs(items[1..])
  }

  predicate WithinLimits(items: seq<bytes>) {
    |items| <= MAX_ARRAY && forall i :: 0 <= i < |items| ==> |items[i]| <= MAX_BULK
  }

  /** Text without CR followed by CRLF is a line. */
  lemma LineOf(text: bytes, rest: bytes)
    requires CR !in text
    ensures ConsumeLine(text + CRLF + rest) == Some(Line(text, rest))
  {
    var s, n := text + CRLF + rest, |text|;
    assert s[n] == CR && s[n + 1] == LF;
    assert forall i :: 0 <= i < n ==> s[i] == text[i];
    assert FirstCrlf(s) == n;
    assert s[..n] == text && s[n + 2..] == rest;
  }

  lemma HeaderLine(kind: byte, n: int, rest: bytes)
    requires kind != CR && InI64(n)
    ensures ConsumeLine(Header(kind, n) + rest) == Some(Line([kind] + ToDecimal(n), rest))
    ensures ParseTrimmed(Tail([kind] + ToDecimal(n))) == Some(n)
    ensures (Header(kind, n) + rest)[0] == kind
  {
    hide ConsumeLine, ToDecimal, ParseTrimmed;
    DecimalBytes(n);
    LineOf([kind] + ToDecimal(n), rest);
    DecimalRoundTrip(n);
    assert Tail([kind] + ToDecimal(n)) == ToDecimal(n);
  }

  /** One printed element is one element of the array. */
  lemma ElementParse(n: nat, args: Args, data: bytes, after: bytes, tokens: bytes -> seq<bytes>)
    requires |args| < n && |data| <= MAX_BULK
    ensures RespProtocol.Parse(Array(n, args), BulkReply(data) + after, tokens) ==
            if |args| + 1 == n then Parsed(Complete(args + [Str(data)]), Init, after)
            else RespProtocol.Parse(Array(n, args + [Str(data)]), after, tokens)
  {
    hide ConsumeLine, ParseTrimmed, Header;
    var body := data + CRLF + after;
    var buf := BulkReply(data) + after;
    assert buf == Header(DOLLAR, |data|) + body;
    HeaderLine(DOLLAR, |data|, body);
    assert Step(Array(n, args), buf, tokens) == More(Bulk(|data|, args, n), body);
    assert body[..|data|] == data && body[|data| + 2..] == after;
    assert Step(Bulk(|data|, args, n), body, tokens) == Push(n, args, Str(data), after);
    hide Step;
    assert RespProtocol.Parse(Array(n, args), buf, tokens) == RespProtocol.Parse(Bulk(|data|, args, n), body, tokens);
  }

  lemma {:induction false} ElementsParse(n: nat, args: Args, items: seq<bytes>, tail: bytes, tokens: bytes -> seq<bytes>)
    requires |args| + |items| == n && items != [] && WithinLimits(items)
    ensures RespProtocol.Parse(Array(n, args), BulkReplies(items) + tail, tokens)
         == Parsed(Complete(args + Strs(items)), Init, tail)
    decreases |items|
  {
    hide BulkReply, RespProtocol.Parse, BulkReplies, Strs;
    var data := items[0];
    var after := BulkReplies(items[1..]) + tail;
    FirstElement(items, args, tail);
    ElementParse(n, args, data, after, tokens);
    if |items| > 1 {
      ElementsParse(n, args + [Str(data)], items[1..], tail, tokens);
    }
  }

  lemma FirstElement(items: seq<bytes>, args: Args, tail: bytes)
    requires items != []
    ensures BulkReplies(items) + tail == BulkReply(items[0]) + (BulkReplies(items[1..]) + tail)
    ensures args + Strs(items) == args + [Str(items[0])] + Strs(items[1..])
    ensures |items| == 1 ==> BulkReplies(items[1..]) + tail == tail && args + Strs(items) == args + [Str(items[0])]
  {
    hide BulkReply;
    Collect.Joined(BulkReply(items[0]), BulkReplies(items[1..]), tail);
    Collect.Joined(args, [Str(items[0])], Strs(items[1..]));
    if |items| == 1 {
      LastElement(items, args + [Str(items[0])], tail);
    }
  }

  lemma LastElement(items: seq<bytes>, args: Args, tail: bytes)
    requires |items| == 1
    ensures BulkReplies(items[1..]) + tail == tail && args + Strs(items[1..]) == args
  {
    hide BulkReply;
    assert items[1..] == [];
  }

  /**
   Any command within the limits, printed and followed by anything, parses to exactly that command
   and leaves exactly what followed, whatever bytes its arguments contain.
   */
  lemma CommandRoundTrip(items: seq<bytes>, tail: bytes, tokens: bytes -> seq<bytes>)
    requires WithinLimits(items)
    ensures RespProtocol.Parse(Init, StringArray(items) + tail, tokens) == Parsed(Complete(Strs(items)), Init, tail)
  {
    hide ConsumeLine, ParseTrimmed, Header;
    var rest := BulkReplies(items) + tail;
    var buf := StringArray(items) + tail;
    assert buf == Header(STAR, |items|) + rest;
    HeaderLine(STAR, |items|, rest);
    if items == [] {
      assert Step(Init, buf, tokens) == Done([], rest) && rest == tail;
    } else {
      assert Step(Init, buf, tokens) == More(Array(|items|, []), rest);
      ElementsParse(|items|, [], items, tail, tokens);
      assert [] + Strs(items) == Strs(items);
    }
  }
}
