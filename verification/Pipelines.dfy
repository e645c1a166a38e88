/** End to end: what a client prints is what the server executes, however the network cuts it. */
module Pipelines {
  import opened Common
  import opened Decimal
  import opened RespProtocol
  import opened RespParsers
  import opened Replies

  /** Several commands, one after the other. */
  function Script(commands: seq<seq<bytes>>): bytes {
    if commands == [] then [] else StringArray(commands[0]) + Script(commands[1..])
  }

  function AllStrs(commands: seq<seq<bytes>>): seq<Args> {
    if commands == [] then [] else [Strs(commands[0])] + AllStrs(commands[1..])
  }

  predicate AllWithinLimits(commands: seq<seq<bytes>>) {
    forall i :: 0 <= i < |commands| ==> WithinLimits(commands[i])
  }

  lemma HeaderStable(kind: byte, n: int, rest: bytes)
    requires kind != CR && kind != LF
    ensures LineStable(Header(kind, n) + rest)
  {
    hide ToDecimal;
    DecimalBytes(n);
    var text := [kind] + ToDecimal(n);
    var s := Header(kind, n) + rest;
    assert s == text + CRLF + rest;
    assert s[|text|] == CR && s[|text| + 1] == LF;
    assert forall i :: 0 <= i < |text| ==> s[i] == text[i];
    assert IndexOf(s, LF) == |text| + 1;
  }

  lemma ElementClean(n: nat, args: Args, data: bytes, after: bytes, tokens: bytes -> seq<bytes>)
    requires |args| < n && |data| <= MAX_BULK
    requires if |args| + 1 == n then Clean(Init, after, tokens) else Clean(Array(n, args + [Str(data)]), after, tokens)
    ensures Clean(Array(n, args), BulkReply(data) + after, tokens)
  {
    hide ConsumeLine, ParseTrimmed, Header, LineStable;
    var body := data + CRLF + after;
    var buf := BulkReply(data) + after;
    assert buf == Header(DOLLAR, |data|) + body;
    HeaderLine(DOLLAR, |data|, body);
    HeaderStable(DOLLAR, |data|, body);
    assert Step(Array(n, args), buf, tokens) == More(Bulk(|data|, args, n), body);
    assert body[..|data|] == data && body[|data| + 2..] == after;
    assert Step(Bulk(|data|, args, n), body, tokens) == Push(n, args, Str(data), after);
    hide Step;
    assert Clean(Bulk(|data|, args, n), body, tokens);
  }

  lemma {:induction false} ElementsClean(n: nat, args: Args, items: seq<bytes>, tail: bytes, tokens: bytes -> seq<bytes>)
    requires |args| + |items| == n && items != [] && WithinLimits(items) && Clean(Init, tail, tokens)
    ensures Clean(Array(n, args), BulkReplies(items) + tail, tokens)
    decreases |items|
  {
    hide BulkReply, Clean;
    var after := BulkReplies(items[1..]) + tail;
    assert BulkReplies(items) + tail == BulkReply(items[0]) + after;
    if |items| == 1 {
      assert items[1..] == [] && after == tail;
    } else {
      ElementsClean(n, args + [Str(items[0])], items[1..], tail, tokens);
    }
    ElementClean(n, args, items[0], after, tokens);
  }

  /** A printed command is clean whatever its arguments contain. */
  lemma CommandClean(items: seq<bytes>, tail: bytes, tokens: bytes -> seq<bytes>)
    requires WithinLimits(items) && Clean(Init, tail, tokens)
    ensures Clean(Init, StringArray(items) + tail, tokens)
  {
    hide ConsumeLine, ParseTrimmed, Header, LineStable;
    var rest := BulkReplies(items) + tail;
    var buf := StringArray(items) + tail;
    assert buf == Header(STAR, |items|) + rest;
    HeaderLine(STAR, |items|, rest);
    HeaderStable(STAR, |items|, rest);
    if items == [] {
      assert rest == tail;
      assert Step(Init, buf, tokens) == Done([], rest);
    } else {
      assert Step(Init, buf, tokens) == More(Array(|items|, []), rest);
      ElementsClean(|items|, [], items, tail, tokens);
    }
  }

  lemma {:induction false} ScriptDrains(commands: seq<seq<bytes>>, tokens: bytes -> seq<bytes>)
    requires AllWithinLimits(commands)
    ensures Clean(Init, Script(commands), tokens)
    ensures Drain(Init, Script(commands), tokens).commands == AllStrs(commands)
    ensures Drain(Init, Script(commands), tokens).end == Waiting(Init, [])
  {
    if commands == [] {
      EmptyDrain(tokens);
    } else {
      hide Clean, Drain, StringArray;
      var rest := Script(commands[1..]);
      ScriptDrains(commands[1..], tokens);
      CommandClean(commands[0], rest, tokens);
      CommandRoundTrip(commands[0], rest, tokens);
      ParseThenDrain(Init, Script(commands), tokens);
    }
  }

  /**
   Any pipeline of commands within the limits, with arbitrary bytes as arguments and cut into chunks
   in any way, is delivered as exactly those commands, with nothing left over and no error.
   */
  lemma PipelineDelivered(commands: seq<seq<bytes>>, chunks: seq<bytes>, tokens: bytes -> seq<bytes>)
    requires AllWithinLimits(commands) && Concat(chunks) == Script(commands)
    ensures var d := Feed(Drain(Init, [], tokens), chunks, tokens);
            d.commands == AllStrs(commands) && d.end == Waiting(Init, [])
  {
    hide Clean, Drain, Feed, Script;
    ScriptDrains(commands, tokens);
    ChunkingIndependent(chunks, tokens);
  }
}
