/** The parser object, and the connection loop that feeds it. */
module RespParsers {
  import opened Common
  import Collect
  import opened Decimal
  import opened RespProtocol

  /** Split off a line: search for CRLF first, then for LF. */
  method TakeLine(buf: bytes) returns (r: Option<Line>)
    ensures r == ConsumeLine(buf)
  {
    var n := if |buf| == 0 then 0 else |buf| - 1;
    for i := 0 to n
      invariant forall j :: 0 <= j < i ==> !(buf[j] == CR && buf[j + 1] == LF)
    {
      if buf[i] == CR && buf[i + 1] == LF {
        assert FirstCrlf(buf) == i;
        return Some(Line(buf[..i], buf[i + 2..]));
      }
    }
    assert FirstCrlf(buf) == |buf|;
    for i := 0 to |buf|
      invariant forall j :: 0 <= j < i ==> buf[j] != LF
    {
      if buf[i] == LF {
        assert IndexOf(buf, LF) == i;
        var end := if i > 0 && buf[i - 1] == CR then i - 1 else i;
        var line := buf[..end];
        var remaining := i - end + 1;
        return Some(Line(line, buf[end..][remaining..]));
      }
    }
    assert IndexOf(buf, LF) == |buf|;
    return None;
  }

  class RespParser {
    var state: State
    const tokens: bytes -> seq<bytes>

    constructor (tokens: bytes -> seq<bytes>)
      ensures state == Init && this.tokens == tokens
    {
      state := Init;
      this.tokens := tokens;
    }

    /** One pass through the loop body. */
    method Turn(buf: bytes) returns (t: Turn)
      ensures t == Step(state, buf, tokens)
    {
      hide ConsumeLine, ParseTrimmed;
      match state {
        case Init =>
          if buf == [] { return Wait; }
          if buf[0] == STAR {
            var l := TakeLine(buf);
            if l.None? { return Wait; }
            return ArrayHeader(l.value);
          } else if buf[0] == CR || buf[0] == LF {
            return More(Init, buf[1..]);
          }
          return More(Inline, buf);
        case Inline =>
          var l := TakeLine(buf);
          if l.None? { return Wait; }
          return InlineCommand(l.value, tokens);
        case Array(expected, args) =>
          if buf == [] { return Wait; }
          if !ElementKind(buf[0]) { return Fail(BadProtocol, buf); }
          var l := TakeLine(buf);
          if l.None? { return Wait; }
          return Element(expected, args, buf[0], l.value);
        case Bulk(len, args, expected) =>
          if |buf| < len + 2 { return Wait; }
          return Push(expected, args, Str(buf[..len]), buf[len + 2..]);
      }
    }

    /** Parse until a command is complete, the buffer runs dry or the input is malformed. */
    method Parse(buf: bytes) returns (result: ParseResult, rest: bytes)
      requires Proper(state)
      modifies this
      ensures Parsed(result, state, rest) == RespProtocol.Parse(old(state), buf, tokens)
      ensures Proper(state)
    {
      hide Step;
      rest := buf;
      while true
        invariant Proper(state)
        invariant RespProtocol.Parse(state, rest, tokens) == RespProtocol.Parse(old(state), buf, tokens)
        decreases |rest|, if state.Init? then 1 else 0
      {
        StepShrinks(state, rest, tokens);
        var t := Turn(rest);
        match t {
          case More(st, more) =>
            state, rest := st, more;
          case Done(args, more) =>
            state, rest := Init, more;
            return Complete(args), rest;
          case Wait =>
            return Incomplete, rest;
          case Fail(e, more) =>
            state, rest := Init, more;
            return Failed(e), rest;
        }
      }
    }
  }

  /** Parsing one command is the first part of draining the buffer. */
  lemma {:induction false} ParseThenDrain(st: State, buf: bytes, tokens: bytes -> seq<bytes>)
    ensures var p := RespProtocol.Parse(st, buf, tokens); var d := Drain(st, buf, tokens);
            match p.result
            case Complete(args) =>
              && |p.rest| < |buf| && p.state == Init
              && d.commands == [args] + Drain(Init, p.rest, tokens).commands && d.end == Drain(Init, p.rest, tokens).end
            case Incomplete => d.commands == [] && d.end == Waiting(p.state, p.rest)
            case Failed(e) => d.commands == [] && d.end == Broken(e)
    decreases |buf|, if st.Init? then 1 else 0
  {
    hide Step, LineTaken;
    StepShrinks(st, buf, tokens);
    match Step(st, buf, tokens)
    case More(st', rest) => ParseThenDrain(st', rest, tokens);
    case _ =>
  }

  /** The commands up to and including the first that closes the connection. */
  function UpTo(commands: seq<Args>, closes: Args -> bool): seq<Args> {
    if commands == [] then []
    else if closes(commands[0]) then [commands[0]]
    else [commands[0]] + UpTo(commands[1..], closes)
  }

  predicate Stays(commands: seq<Args>, closes: Args -> bool) {
    forall j :: 0 <= j < |commands| ==> !closes(commands[j])
  }

  lemma {:induction false} UpToAll(commands: seq<Args>, closes: Args -> bool)
    requires Stays(commands, closes)
    ensures UpTo(commands, closes) == commands
  {
    if commands != [] {
      UpToAll(commands[1..], closes);
    }
  }

  lemma {:induction false} UpToFirst(commands: seq<Args>, closes: Args -> bool, n: nat)
    requires n < |commands| && Stays(commands[..n], closes) && closes(commands[n])
    ensures UpTo(commands, closes) == commands[..n + 1]
    decreases n
  {
    if n > 0 {
      assert !closes(commands[..n][0]);
      assert commands[1..][..n - 1] == commands[..n][1..];
      UpToFirst(commands[1..], closes, n - 1);
    }
  }

  /** What a connection should make of a stream: its commands up to a QUIT, and its protocol error if none came before. */
  ghost predicate Served(d: Drained, closes: Args -> bool, commands: seq<Args>, failure: Option<ParseError>, quit: bool) {
    && commands == UpTo(d.commands, closes)
    && quit == !Stays(d.commands, closes)
    && if quit then failure.None?
       else if failure.Some? then d.end == Broken(failure.value)
       else d.end.Waiting?
  }

  /** Parse everything complete in the buffer, until a command closes the connection or the input is malformed. */
  method ParseAll(parser: RespParser, start: bytes, before: seq<Args>, closes: Args -> bool, ghost d: Drained)
    returns (commands: seq<Args>, rest: bytes, failure: Option<ParseError>, quit: bool)
    requires Proper(parser.state) && Stays(before, closes)
    requires var here := Drain(parser.state, start, parser.tokens); d.commands == before + here.commands && d.end == here.end
    modifies parser
    ensures Proper(parser.state)
    ensures quit ==> failure.None? && Quits(d.commands, closes, commands)
    ensures !quit ==> Stays(commands, closes) && d.commands == commands
    ensures !quit ==> d.end == if failure.Some? then Broken(failure.value) else Waiting(parser.state, rest)
  {
    hide Drain, Stays, Quits, RespProtocol.Parse;
    commands, rest, failure, quit := before, start, None, false;
    while true
      invariant Proper(parser.state) && Stays(commands, closes)
      invariant d.commands == commands + Drain(parser.state, rest, parser.tokens).commands
      invariant d.end == Drain(parser.state, rest, parser.tokens).end
      decreases |rest|
    {
      ParseThenDrain(parser.state, rest, parser.tokens);
      var result, more := parser.Parse(rest);
      rest := more;
      match result {
        case Complete(args) =>
          Collect.Joined(commands, [args], Drain(parser.state, rest, parser.tokens).commands);
          if closes(args) {
            QuitFound(commands, closes, args, Drain(parser.state, rest, parser.tokens).commands);
            return commands + [args], rest, None, true;
          }
          StaysMore(commands, closes, args);
          commands := commands + [args];
        case Incomplete =>
          assert commands + [] == commands;
          return;
        case Failed(e) =>
          assert commands + [] == commands;
          return commands, rest, Some(e), false;
      }
    }
  }

  /** The commands are a prefix of all, and only the last of them closes the connection. */
  predicate Quits(all: seq<Args>, closes: Args -> bool, commands: seq<Args>) {
    && commands != [] && commands <= all
    && Stays(commands[..|commands| - 1], closes) && closes(commands[|commands| - 1])
  }

  /**
   Serve a connection: append each chunk to the read buffer and parse everything complete, until a QUIT
   or a protocol error closes it. On a clean stream all this does not depend on the chunks.
   */
  method Serve(chunks: seq<bytes>, tokens: bytes -> seq<bytes>, closes: Args -> bool)
    returns (commands: seq<Args>, failure: Option<ParseError>, quit: bool)
    ensures Served(Feed(Drain(Init, [], tokens), chunks, tokens), closes, commands, failure, quit)
    ensures Clean(Init, Concat(chunks), tokens) ==> Served(Drain(Init, Concat(chunks), tokens), closes, commands, failure, quit)
  {
    hide Drain, Clean, Feed, Resume, Stays, UpTo, Served, Quits;
    if Clean(Init, Concat(chunks), tokens) {
      ChunkingIndependent(chunks, tokens);
    }
    var parser := new RespParser(tokens);
    ghost var all := Feed(Drain(Init, [], tokens), chunks, tokens);
    ghost var d := Drain(Init, [], tokens);
    var buf: bytes := [];
    commands, failure, quit := [], None, false;
    EmptyDrain(tokens);
    NoCommands(closes);
    for i := 0 to |chunks|
      invariant Proper(parser.state) && parser.tokens == tokens && Stays(commands, closes)
      invariant d.commands == commands && d.end == Waiting(parser.state, buf)
      invariant Feed(d, chunks[i..], tokens) == all && failure.None? && !quit
    {
      buf := buf + chunks[i];
      FeedStep(d, chunks, i, tokens);
      ResumeParts(d, chunks[i], tokens);
      d := Resume(d, chunks[i], tokens);
      commands, buf, failure, quit := ParseAll(parser, buf, commands, closes, d);
      if quit {
        FeedExtends(d, chunks[i + 1..], tokens);
        QuitEnds(d.commands, all, closes, commands);
        return;
      }
      if failure.Some? {
        FeedBroken(d, chunks[i + 1..], tokens);
        StreamEnds(all, closes, commands, failure);
        return;
      }
    }
    FeedDone(d, chunks, tokens);
    StreamEnds(all, closes, commands, None);
  }

  lemma QuitFound(commands: seq<Args>, closes: Args -> bool, args: Args, more: seq<Args>)
    requires Stays(commands, closes) && closes(args)
    ensures Quits(commands + [args] + more, closes, commands + [args])
  {
    assert (commands + [args])[..|commands|] == commands;
  }

  lemma NoCommands(closes: Args -> bool)
    ensures Stays([], closes)
  {}

  lemma StaysMore(commands: seq<Args>, closes: Args -> bool, args: Args)
    requires Stays(commands, closes) && !closes(args)
    ensures Stays(commands + [args], closes)
  {}

  lemma StreamEnds(d: Drained, closes: Args -> bool, commands: seq<Args>, failure: Option<ParseError>)
    requires d.commands == commands && Stays(commands, closes)
    requires if failure.Some? then d.end == Broken(failure.value) else d.end.Waiting?
    ensures Served(d, closes, commands, failure, false)
  {
    UpToAll(commands, closes);
  }

  lemma QuitEnds(sofar: seq<Args>, d: Drained, closes: Args -> bool, commands: seq<Args>)
    requires Quits(sofar, closes, commands) && sofar <= d.commands
    ensures Served(d, closes, commands, None, true)
  {
    var all, n := d.commands, |commands| - 1;
    assert all[..n] == commands[..n] && all[n] == commands[n] && all[..n + 1] == commands;
    UpToFirst(all, closes, n);
  }

  /** More input never takes back a command. */
  lemma {:induction false} FeedExtends(d: Drained, chunks: seq<bytes>, tokens: bytes -> seq<bytes>)
    ensures d.commands <= Feed(d, chunks, tokens).commands
    decreases |chunks|
  {
    if chunks != [] {
      FeedExtends(Resume(d, chunks[0], tokens), chunks[1..], tokens);
    }
  }

  lemma EmptyDrain(tokens: bytes -> seq<bytes>)
    ensures Drain(Init, [], tokens) == Drained([], [], Waiting(Init, []))
  {}

  lemma FeedStep(d: Drained, chunks: seq<bytes>, i: nat, tokens: bytes -> seq<bytes>)
    requires i < |chunks|
    ensures Feed(d, chunks[i..], tokens) == Feed(Resume(d, chunks[i], tokens), chunks[i + 1..], tokens)
  {
    assert chunks[i..][1..] == chunks[i + 1..];
  }

  lemma ResumeParts(d: Drained, more: bytes, tokens: bytes -> seq<bytes>)
    requires d.end.Waiting?
    ensures Resume(d, more, tokens).commands == d.commands + Drain(d.end.state, d.end.rest + more, tokens).commands
    ensures Resume(d, more, tokens).end == Drain(d.end.state, d.end.rest + more, tokens).end
  {}

  lemma {:induction false} FeedBroken(d: Drained, chunks: seq<bytes>, tokens: bytes -> seq<bytes>)
    requires d.end.Broken?
    ensures Feed(d, chunks, tokens) == d
    decreases |chunks|
  {
    if chunks != [] {
      FeedBroken(d, chunks[1..], tokens);
    }
  }

  lemma FeedDone(d: Drained, chunks: seq<bytes>, tokens: bytes -> seq<bytes>)
    ensures Feed(d, chunks[|chunks|..], tokens) == d
  {}
}
