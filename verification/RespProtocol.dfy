/** Incremental RESP2 command parsing as a state machine over a byte buffer. */
module RespProtocol {
  import opened Common
  import opened Decimal

  const STAR: byte := 42
  const DOLLAR: byte := 36
  const COLON: byte := 58
  const MAX_ARRAY := 1048576
  const MAX_BULK := 536870912

  datatype Expr = Str(data: bytes) | Int(n: int) | Nil | Error(data: bytes)

  type Args = seq<Expr>

  datatype ParseError = BadArrayLen | BadBulkLen | BadInteger | BadProtocol

  datatype State =
    | Init
    | Array(expected: nat, args: Args)
    | Bulk(len: nat, args: Args, arrayExpected: nat)
    | Inline

  /** Between elements an array is never full. */
  predicate Proper(st: State) {
    match st
    case Array(expected, args) => |args| < expected
    case Bulk(_, args, expected) => |args| < expected
    case _ => true
  }

  // ---- Lines ----

  /** The index of the first CRLF at or after `i`, or the length. */
  function FirstCrlf(buf: bytes, i: nat := 0): (r: nat)
    requires i <= |buf|
    ensures i <= r <= |buf|
    ensures r < |buf| ==> r + 1 < |buf| && buf[r] == CR && buf[r + 1] == LF
    ensures forall j :: i <= j < r && j + 1 < |buf| ==> !(buf[j] == CR && buf[j + 1] == LF)
    decreases |buf| - i
  {
    if i + 1 >= |buf| then |buf|
    else if buf[i] == CR && buf[i + 1] == LF then i
    else FirstCrlf(buf, i + 1)
  }

  datatype Line = Line(text: bytes, rest: bytes)

  /** Take a line: up to the first CRLF anywhere, else up to the first LF. */
  function ConsumeLine(buf: bytes): (r: Option<Line>)
    ensures r.Some? ==> |r.value.rest| < |buf|
  {
    var i := FirstCrlf(buf);
    if i < |buf| then Some(Line(buf[..i], buf[i + 2..]))
    else
      var j := IndexOf(buf, LF);
      if j == |buf| then None
      else Some(Line(buf[..if j > 0 && buf[j - 1] == CR then j - 1 else j], buf[j + 1..]))
  }

  /**
   A line is there exactly if there is an LF. It ends at the first CRLF of the whole buffer, and at the
   first LF only if there is no CRLF at all.
   */
  lemma LineMeaning(buf: bytes)
    ensures ConsumeLine(buf).None? <==> LF !in buf
    ensures ConsumeLine(buf).Some? ==>
              var l := ConsumeLine(buf).value;
              if HasCrlf(buf) then buf == l.text + CRLF + l.rest && !HasCrlf(l.text + [CR])
              else buf == l.text + [LF] + l.rest && LF !in l.text
  {
    var i, j := FirstCrlf(buf), IndexOf(buf, LF);
    if i < |buf| {
      var l := ConsumeLine(buf).value;
      assert buf[i + 1] in buf;
      assert forall k :: 0 <= k <= i ==> (l.text + [CR])[k] == buf[k];
    } else if j < |buf| {
      assert buf[j] in buf;
    }
  }

  // ---- One turn of the loop ----

  datatype Turn =
    | More(state: State, rest: bytes)
    | Done(args: Args, rest: bytes)
    | Wait
    | Fail(error: ParseError, rest: bytes)

  function Tail(s: bytes): bytes { if s == [] then [] else s[1..] }

  /** Add an element to the array; a full array is a complete command. */
  function Push(expected: nat, args: Args, e: Expr, rest: bytes): Turn {
    if |args| + 1 == expected then Done(args + [e], rest) else More(Array(expected, args + [e]), rest)
  }

  function ArrayHeader(l: Line): Turn {
    var n := ParseTrimmed(Tail(l.text));
    if n.None? || n.value < 0 || n.value > MAX_ARRAY then Fail(BadArrayLen, l.rest)
    else if n.value == 0 then Done([], l.rest)
    else More(Array(n.value, []), l.rest)
  }

  function Element(expected: nat, args: Args, kind: byte, l: Line): Turn {
    var text := Tail(l.text);
    if kind == DOLLAR then
      var n := ParseTrimmed(text);
      if n == Some(-1) then Push(expected, args, Nil, l.rest)
      else if n.None? || n.value < 0 || n.value > MAX_BULK then Fail(BadBulkLen, l.rest)
      else More(Bulk(n.value, args, expected), l.rest)
    else if kind == PLUS then Push(expected, args, Str(text), l.rest)
    else if kind == COLON then
      var n := ParseTrimmed(text);
      if n.None? then Fail(BadInteger, l.rest) else Push(expected, args, Int(n.value), l.rest)
    else Push(expected, args, Error(text), l.rest)
  }

  function InlineCommand(l: Line, tokens: bytes -> seq<bytes>): Turn {
    var words := tokens(l.text);
    if words == [] then More(Init, l.rest)
    else Done(seq(|words|, i requires 0 <= i < |words| => Str(words[i])), l.rest)
  }

  predicate ElementKind(b: byte) { b == DOLLAR || b == PLUS || b == COLON || b == MINUS }

  /** The state machine asks for a line here. */
  predicate WantsLine(st: State, buf: bytes) {
    match st
    case Init => buf != [] && buf[0] == STAR
    case Inline => true
    case Array(_, _) => buf != [] && ElementKind(buf[0])
    case Bulk(_, _, _) => false
  }

  function OnLine(st: State, buf: bytes, l: Line, tokens: bytes -> seq<bytes>): Turn
    requires WantsLine(st, buf)
  {
    match st
    case Init => ArrayHeader(l)
    case Inline => InlineCommand(l, tokens)
    case Array(expected, args) => Element(expected, args, buf[0], l)
  }

  function Step(st: State, buf: bytes, tokens: bytes -> seq<bytes>): Turn {
    if WantsLine(st, buf) then
      var l := ConsumeLine(buf);
      if l.None? then Wait else OnLine(st, buf, l.value, tokens)
    else
      match st
      case Init =>
        if buf == [] then Wait
        else if buf[0] == CR || buf[0] == LF then More(Init, buf[1..])
        else More(Inline, buf)
      case Array(_, _) => if buf == [] then Wait else Fail(BadProtocol, buf)
      case Bulk(len, args, expected) =>
        if |buf| < len + 2 then Wait else Push(expected, args, Str(buf[..len]), buf[len + 2..])
      case Inline => Wait
  }

  predicate Smaller(t: Turn, st: State, buf: bytes) {
    match t
    case More(st', rest) => |rest| < |buf| || (rest == buf && st.Init? && st'.Inline?)
    case Done(_, rest) => |rest| < |buf|
    case Wait => true
    case Fail(_, rest) => |rest| <= |buf|
  }

  lemma StepShrinks(st: State, buf: bytes, tokens: bytes -> seq<bytes>)
    ensures Smaller(Step(st, buf, tokens), st, buf)
    ensures Proper(st) && Step(st, buf, tokens).More? ==> Proper(Step(st, buf, tokens).state)
  {
    hide ParseTrimmed, FirstCrlf, IndexOf;
  }

  // ---- Parsing one command ----

  datatype ParseResult = Complete(args: Args) | Incomplete | Failed(error: ParseError)

  datatype Parsed = Parsed(result: ParseResult, state: State, rest: bytes)

  function Parse(st: State, buf: bytes, tokens: bytes -> seq<bytes>): Parsed
    decreases |buf|, if st.Init? then 1 else 0
  {
    StepShrinks(st, buf, tokens);
    match Step(st, buf, tokens)
    case More(st', rest) => Parse(st', rest, tokens)
    case Done(args, rest) => Parsed(Complete(args), Init, rest)
    case Wait => Parsed(Incomplete, st, buf)
    case Fail(e, rest) => Parsed(Failed(e), Init, rest)
  }

  // ---- Parsing everything a buffer holds ----

  datatype End = Waiting(state: State, rest: bytes) | Broken(error: ParseError)

  /** The commands found, the lines taken on the way, and how it ended. */
  datatype Drained = Drained(commands: seq<Args>, lines: seq<bytes>, end: End)

  function Before(commands: seq<Args>, lines: seq<bytes>, d: Drained): Drained {
    Drained(commands + d.commands, lines + d.lines, d.end)
  }

  function LineTaken(st: State, buf: bytes): seq<bytes> {
    if WantsLine(st, buf) && ConsumeLine(buf).Some? then [ConsumeLine(buf).value.text] else []
  }

  function Drain(st: State, buf: bytes, tokens: bytes -> seq<bytes>): Drained
    decreases |buf|, if st.Init? then 1 else 0
  {
    StepShrinks(st, buf, tokens);
    match Step(st, buf, tokens)
    case More(st', rest) => Before([], LineTaken(st, buf), Drain(st', rest, tokens))
    case Done(args, rest) => Before([args], LineTaken(st, buf), Drain(Init, rest, tokens))
    case Wait => Drained([], [], Waiting(st, buf))
    case Fail(e, _) => Drained([], LineTaken(st, buf), Broken(e))
  }

  /** Go on with more bytes after a buffer ran dry. */
  function Resume(d: Drained, more: bytes, tokens: bytes -> seq<bytes>): Drained {
    if d.end.Broken? then d
    else Before(d.commands, d.lines, Drain(d.end.state, d.end.rest + more, tokens))
  }

  /** Feed a stream chunk by chunk, draining the buffer after each chunk; stop at an error. */
  function Feed(d: Drained, chunks: seq<bytes>, tokens: bytes -> seq<bytes>): Drained
    decreases |chunks|
  {
    if chunks == [] then d else Feed(Resume(d, chunks[0], tokens), chunks[1..], tokens)
  }

  function Concat(chunks: seq<bytes>): bytes {
    if chunks == [] then [] else chunks[0] + Concat(chunks[1..])
  }

  // ---- When a cut cannot matter ----

  predicate HasCrlf(buf: bytes) { FirstCrlf(buf) < |buf| }

  /** The first LF ends a CRLF, unless there is no CRLF at all. */
  predicate LineStable(buf: bytes) {
    var j := IndexOf(buf, LF);
    j < |buf| && HasCrlf(buf) ==> j > 0 && buf[j - 1] == CR
  }

  /** Every line the parser takes from this buffer ends where it would end in any prefix. */
  predicate Clean(st: State, buf: bytes, tokens: bytes -> seq<bytes>)
    decreases |buf|, if st.Init? then 1 else 0
  {
    StepShrinks(st, buf, tokens);
    && (WantsLine(st, buf) ==> LineStable(buf))
    && match Step(st, buf, tokens)
       case More(st', rest) => Clean(st', rest, tokens)
       case Done(_, rest) => Clean(Init, rest, tokens)
       case _ => true
  }

  function Extend(t: Turn, more: bytes): Turn {
    match t
    case More(st, rest) => More(st, rest + more)
    case Done(args, rest) => Done(args, rest + more)
    case Wait => Wait
    case Fail(e, rest) => Fail(e, rest + more)
  }

  // ---- Chunking does not matter ----

  lemma CrlfExtends(a: bytes, b: bytes)
    requires HasCrlf(a)
    ensures HasCrlf(a + b) && FirstCrlf(a + b) == FirstCrlf(a)
  {
    var i, j := FirstCrlf(a), FirstCrlf(a + b);
    assert (a + b)[i] == CR && (a + b)[i + 1] == LF;
  }

  lemma LfExtends(a: bytes, b: bytes)
    requires IndexOf(a, LF) < |a|
    ensures IndexOf(a + b, LF) == IndexOf(a, LF)
  {
    var i, j := IndexOf(a, LF), IndexOf(a + b, LF);
    assert (a + b)[i] == LF;
  }

  /** A stable line is the same line in every extension of the buffer. */
  lemma LineExtends(a: bytes, b: bytes)
    requires ConsumeLine(a).Some? && LineStable(a + b)
    ensures ConsumeLine(a + b) == Some(Line(ConsumeLine(a).value.text, ConsumeLine(a).value.rest + b))
  {
    if HasCrlf(a) {
      CrlfExtends(a, b);
      var i := FirstCrlf(a);
      assert (a + b)[..i] == a[..i] && (a + b)[i + 2..] == a[i + 2..] + b;
    } else {
      LfExtends(a, b);
      var j := IndexOf(a, LF);
      assert j > 0 ==> (a + b)[j - 1] == a[j - 1];
      assert a[j] == LF;
      assert !HasCrlf(a + b);
      assert (a + b)[..j] == a[..j] && (a + b)[j + 1..] == a[j + 1..] + b;
    }
  }

  lemma StepExtends(st: State, a: bytes, b: bytes, tokens: bytes -> seq<bytes>)
    requires WantsLine(st, a + b) ==> LineStable(a + b)
    requires !Step(st, a, tokens).Wait?
    ensures Step(st, a + b, tokens) == Extend(Step(st, a, tokens), b)
    ensures LineTaken(st, a + b) == LineTaken(st, a)
  {
    hide ParseTrimmed, LineStable, ConsumeLine;
    assert a != [] ==> (a + b)[0] == a[0];
    if WantsLine(st, a) {
      LineExtends(a, b);
    } else if st.Bulk? {
      assert (a + b)[..st.len] == a[..st.len] && (a + b)[st.len + 2..] == a[st.len + 2..] + b;
    } else if a != [] {
      assert (a + b)[1..] == a[1..] + b;
    }
  }

  lemma ResumeBefore(commands: seq<Args>, lines: seq<bytes>, d: Drained, more: bytes, tokens: bytes -> seq<bytes>)
    ensures Resume(Before(commands, lines, d), more, tokens) == Before(commands, lines, Resume(d, more, tokens))
  {
    hide Drain;
    if d.end.Waiting? {
      var r := Drain(d.end.state, d.end.rest + more, tokens);
      assert commands + d.commands + r.commands == commands + (d.commands + r.commands);
      assert lines + d.lines + r.lines == lines + (d.lines + r.lines);
    }
  }

  /** Draining a clean stream in two pieces is draining it in one. */
  lemma {:induction false} DrainSplits(st: State, a: bytes, b: bytes, tokens: bytes -> seq<bytes>)
    requires Clean(st, a + b, tokens)
    ensures Drain(st, a + b, tokens) == Resume(Drain(st, a, tokens), b, tokens)
    ensures var e := Drain(st, a, tokens).end; e.Waiting? ==> Clean(e.state, e.rest + b, tokens)
    decreases |a|, if st.Init? then 1 else 0
  {
    hide Step, WantsLine, LineStable, LineTaken, Resume;
    StepShrinks(st, a, tokens);
    var t := Step(st, a, tokens);
    if t.Wait? {
      WaitResumes(st, a, b, tokens);
    } else {
      StepExtends(st, a, b, tokens);
      match t
      case More(st', rest) =>
        DrainSplits(st', rest, b, tokens);
        ResumeBefore([], LineTaken(st, a), Drain(st', rest, tokens), b, tokens);
      case Done(args, rest) =>
        DrainSplits(Init, rest, b, tokens);
        ResumeBefore([args], LineTaken(st, a), Drain(Init, rest, tokens), b, tokens);
      case Fail(e, rest) =>
        assert Drain(st, a, tokens).end.Broken?;
        BrokenStays(Drain(st, a, tokens), b, tokens);
    }
  }

  lemma WaitResumes(st: State, a: bytes, b: bytes, tokens: bytes -> seq<bytes>)
    requires Step(st, a, tokens).Wait?
    ensures Drain(st, a, tokens) == Drained([], [], Waiting(st, a))
    ensures Resume(Drain(st, a, tokens), b, tokens) == Drain(st, a + b, tokens)
  {
    hide Step;
    var d := Drain(st, a + b, tokens);
    assert [] + d.commands == d.commands && [] + d.lines == d.lines;
  }

  lemma BrokenStays(d: Drained, b: bytes, tokens: bytes -> seq<bytes>)
    requires d.end.Broken?
    ensures Resume(d, b, tokens) == d
  {}

  /**
   However a clean stream is cut into chunks, feeding the chunks one after the other gives the same
   commands, ended by the same error or left in the same state, as parsing the stream in one piece.
   */
  lemma {:induction false} ChunkingIndependent(chunks: seq<bytes>, tokens: bytes -> seq<bytes>)
    requires Clean(Init, Concat(chunks), tokens)
    ensures Feed(Drain(Init, [], tokens), chunks, tokens) == Drain(Init, Concat(chunks), tokens)
  {
    assert [] + Concat(chunks) == Concat(chunks);
    FeedRest([], chunks, tokens);
  }

  lemma {:induction false} FeedRest(sofar: bytes, chunks: seq<bytes>, tokens: bytes -> seq<bytes>)
    requires Clean(Init, sofar + Concat(chunks), tokens)
    ensures Feed(Drain(Init, sofar, tokens), chunks, tokens) == Drain(Init, sofar + Concat(chunks), tokens)
    decreases |chunks|
  {
    hide Drain, Clean;
    if chunks == [] {
      assert sofar + Concat(chunks) == sofar;
    } else {
      var next := sofar + chunks[0];
      assert sofar + Concat(chunks) == next + Concat(chunks[1..]);
      FeedRest(next, chunks[1..], tokens);
      CleanPrefix(Init, next, Concat(chunks[1..]), tokens);
      DrainSplits(Init, sofar, chunks[0], tokens);
    }
  }

  /** A prefix of a clean stream is clean. */
  lemma {:induction false} CleanPrefix(st: State, a: bytes, b: bytes, tokens: bytes -> seq<bytes>)
    requires Clean(st, a + b, tokens)
    ensures Clean(st, a, tokens)
    decreases |a|, if st.Init? then 1 else 0
  {
    hide Step, WantsLine, LineStable;
    StepShrinks(st, a, tokens);
    WantsLineExtends(st, a, b);
    if WantsLine(st, a) {
      StablePrefix(a, b);
    }
    if !Step(st, a, tokens).Wait? {
      StepExtends(st, a, b, tokens);
      match Step(st, a, tokens)
      case More(st', rest) => CleanPrefix(st', rest, b, tokens);
      case Done(_, rest) => CleanPrefix(Init, rest, b, tokens);
      case _ =>
    }
  }

  lemma WantsLineExtends(st: State, a: bytes, b: bytes)
    ensures WantsLine(st, a) ==> WantsLine(st, a + b)
  {}

  lemma StablePrefix(a: bytes, b: bytes)
    requires LineStable(a + b)
    ensures LineStable(a)
  {
    if IndexOf(a, LF) < |a| && HasCrlf(a) {
      LfExtends(a, b);
      CrlfExtends(a, b);
      var j := IndexOf(a, LF);
      assert j > 0 ==> (a + b)[j - 1] == a[j - 1];
    }
  }

  // ---- Exactly when chunking does not matter ----

  lemma TurnRest(st: State, s: bytes, tokens: bytes -> seq<bytes>)
    requires var t := Step(st, s, tokens); t.More? || t.Done?
    ensures var t := Step(st, s, tokens); |t.rest| <= |s| && t.rest == s[|s| - |t.rest|..]
    ensures var t := Step(st, s, tokens); t.More? && t.state.Inline? ==> t.rest == s && s != [] && s[0] != LF
  {
    hide Step, WantsLine;
    if WantsLine(st, s) {
      LineTurnRest(st, s, tokens);
    } else {
      OtherTurnRest(st, s, tokens);
    }
  }

  /** A line that does not fail is consumed whole, and never starts an inline command. */
  lemma OnLineRest(st: State, s: bytes, l: Line, tokens: bytes -> seq<bytes>)
    requires WantsLine(st, s)
    ensures var t := OnLine(st, s, l, tokens);
            (t.More? || t.Done? ==> t.rest == l.rest) && (t.More? ==> !t.state.Inline?)
  {
    hide ParseTrimmed;
  }

  lemma LineTurnRest(st: State, s: bytes, tokens: bytes -> seq<bytes>)
    requires WantsLine(st, s)
    requires var t := Step(st, s, tokens); t.More? || t.Done?
    ensures var t := Step(st, s, tokens); |t.rest| <= |s| && t.rest == s[|s| - |t.rest|..]
    ensures var t := Step(st, s, tokens); !(t.More? && t.state.Inline?)
  {
    hide ConsumeLine, OnLine, WantsLine;
    LineRest(s);
    OnLineRest(st, s, ConsumeLine(s).value, tokens);
  }

  lemma OtherTurnRest(st: State, s: bytes, tokens: bytes -> seq<bytes>)
    requires !WantsLine(st, s)
    requires var t := Step(st, s, tokens); t.More? || t.Done?
    ensures var t := Step(st, s, tokens); |t.rest| <= |s| && t.rest == s[|s| - |t.rest|..]
    ensures var t := Step(st, s, tokens); t.More? && t.state.Inline? ==> t.rest == s && s != [] && s[0] != LF
  {
    hide ConsumeLine, OnLine;
  }

  /** Cutting the buffer behind what a step consumes does not change the step. */
  lemma StepOnPrefix(st: State, s: bytes, n: nat, rest: bytes, tokens: bytes -> seq<bytes>)
    requires var t := Step(st, s, tokens); (t.More? || t.Done?) && t.rest == rest
    requires |rest| <= |s| && |s| - |rest| <= n <= |s| && n > 0
    ensures var t := Step(st, s, tokens); var k := n - (|s| - |rest|);
            Step(st, s[..n], tokens) == if t.More? then More(t.state, rest[..k]) else Done(t.args, rest[..k])
    ensures LineTaken(st, s[..n]) == LineTaken(st, s)
    ensures rest == s[|s| - |rest|..]
  {
    TurnRest(st, s, tokens);
    hide Step, WantsLine, LineTaken;
    if WantsLine(st, s) {
      LineStepOnPrefix(st, s, n, rest, tokens);
    } else {
      OtherStepOnPrefix(st, s, n, rest, tokens);
    }
  }

  lemma LineStepOnPrefix(st: State, s: bytes, n: nat, rest: bytes, tokens: bytes -> seq<bytes>)
    requires WantsLine(st, s)
    requires var t := Step(st, s, tokens); (t.More? || t.Done?) && t.rest == rest
    requires |rest| <= |s| && |s| - |rest| <= n <= |s| && n > 0
    ensures var t := Step(st, s, tokens); var k := n - (|s| - |rest|);
            Step(st, s[..n], tokens) == if t.More? then More(t.state, rest[..k]) else Done(t.args, rest[..k])
    ensures LineTaken(st, s[..n]) == LineTaken(st, s)
  {
    hide ParseTrimmed, ConsumeLine;
    assert ConsumeLine(s).value.rest == rest;
    LineOnPrefix(s, n);
  }

  lemma OtherStepOnPrefix(st: State, s: bytes, n: nat, rest: bytes, tokens: bytes -> seq<bytes>)
    requires !WantsLine(st, s) && |rest| <= |s| && rest == s[|s| - |rest|..]
    requires var t := Step(st, s, tokens); (t.More? || t.Done?) && t.rest == rest
    requires |rest| <= |s| && |s| - |rest| <= n <= |s| && n > 0
    ensures var t := Step(st, s, tokens); var k := n - (|s| - |rest|);
            Step(st, s[..n], tokens) == if t.More? then More(t.state, rest[..k]) else Done(t.args, rest[..k])
    ensures LineTaken(st, s[..n]) == LineTaken(st, s)
  {
    hide ParseTrimmed, ConsumeLine;
    var a := s[..n];
    if st.Bulk? {
      assert a[..st.len] == s[..st.len] && a[st.len + 2..] == rest[..n - (st.len + 2)];
    } else if s[0] == CR || s[0] == LF {
      assert a[1..] == rest[..n - 1];
    }
  }

  lemma LineRest(s: bytes)
    requires ConsumeLine(s).Some?
    ensures var l := ConsumeLine(s).value; |l.rest| < |s| && l.rest == s[|s| - |l.rest|..]
  {}

  lemma LineOnPrefix(s: bytes, n: nat)
    requires ConsumeLine(s).Some? && |s| - |ConsumeLine(s).value.rest| <= n <= |s|
    ensures var l := ConsumeLine(s).value;
            ConsumeLine(s[..n]) == Some(Line(l.text, l.rest[..n - (|s| - |l.rest|)]))
  {
    var a := s[..n];
    var i := FirstCrlf(s);
    if i < |s| {
      assert a[i] == CR && a[i + 1] == LF;
      assert FirstCrlf(a) == i;
      assert a[..i] == s[..i] && a[i + 2..] == s[i + 2..][..n - (i + 2)];
    } else {
      var j := IndexOf(s, LF);
      assert a[j] == LF;
      assert IndexOf(a, LF) == j;
      assert a[..j] == s[..j] && a[j + 1..] == s[j + 1..][..n - (j + 1)];
    }
  }

  /** A line that is not stable is cut short when the stream is cut behind its bare LF. */
  lemma UnstableLine(st: State, s: bytes, tokens: bytes -> seq<bytes>)
    requires WantsLine(st, s) && !LineStable(s)
    ensures var n := IndexOf(s, LF) + 1; n <= |s| && Resume(Drain(st, s[..n], tokens), s[n..], tokens).lines != Drain(st, s, tokens).lines
  {
    hide Step;
    var j, i := IndexOf(s, LF), FirstCrlf(s);
    var a := s[..j + 1];
    assert i > j by {
      assert s[i + 1] == LF;
    }
    assert ConsumeLine(s).value.text == s[..i];
    assert IndexOf(a, LF) == j by { assert a[j] == LF; }
    assert !HasCrlf(a);
    assert j > 0 ==> a[j - 1] == s[j - 1];
    assert ConsumeLine(a).value.text == a[..j];
    FirstLine(st, a, tokens);
    FirstLine(st, s, tokens);
    ResumeKeeps(Drain(st, a, tokens), s[j + 1..], tokens);
    assert |a[..j]| < |s[..i]|;
  }

  lemma FirstLine(st: State, s: bytes, tokens: bytes -> seq<bytes>)
    requires WantsLine(st, s) && ConsumeLine(s).Some?
    ensures var ls := Drain(st, s, tokens).lines; ls != [] && ls[0] == ConsumeLine(s).value.text
  {
    hide ParseTrimmed, ConsumeLine, WantsLine;
    StepShrinks(st, s, tokens);
    assert LineTaken(st, s) == [ConsumeLine(s).value.text];
    assert !Step(st, s, tokens).Wait?;
  }

  lemma ResumeKeeps(d: Drained, more: bytes, tokens: bytes -> seq<bytes>)
    requires d.lines != []
    ensures var ls := Resume(d, more, tokens).lines; ls != [] && ls[0] == d.lines[0]
  {
    hide Drain;
  }

  /** A stream that is not clean has a cut that changes the lines the parser takes. */
  lemma {:induction false} DirtyCut(st: State, s: bytes, tokens: bytes -> seq<bytes>) returns (n: nat)
    requires !Clean(st, s, tokens)
    ensures 0 < n <= |s| && Resume(Drain(st, s[..n], tokens), s[n..], tokens).lines != Drain(st, s, tokens).lines
    decreases |s|, if st.Init? then 1 else 0
  {
    hide Step, WantsLine, LineStable, LineTaken, Resume;
    StepShrinks(st, s, tokens);
    if WantsLine(st, s) && !LineStable(s) {
      UnstableLine(st, s, tokens);
      n := IndexOf(s, LF) + 1;
    } else {
      var t := Step(st, s, tokens);
      var st', rest, found := if t.More? then t.state else Init, t.rest, if t.More? then [] else [t.args];
      var k := DirtyCut(st', rest, tokens);
      n := k + (|s| - |rest|);
      StepOnPrefix(st, s, n, rest, tokens);
      StepShrinks(st, s[..n], tokens);
      assert s[n..] == rest[k..];
      var lines := LineTaken(st, s);
      assert Drain(st, s[..n], tokens) == Before(found, lines, Drain(st', rest[..k], tokens));
      assert Drain(st, s, tokens) == Before(found, lines, Drain(st', rest, tokens));
      ResumeBefore(found, lines, Drain(st', rest[..k], tokens), rest[k..], tokens);
      DifferentTail(lines, Resume(Drain(st', rest[..k], tokens), rest[k..], tokens).lines, Drain(st', rest, tokens).lines);
    }
  }

  lemma DifferentTail(a: seq<bytes>, b: seq<bytes>, c: seq<bytes>)
    requires b != c
    ensures a + b != a + c
  {
    assert (a + b)[|a|..] == b && (a + c)[|a|..] == c;
  }

  /** Clean streams are exactly those where no cut changes the lines that are taken. */
  lemma CleanIffCutsAgree(s: bytes, tokens: bytes -> seq<bytes>)
    ensures Clean(Init, s, tokens) <==>
            forall n :: 0 <= n <= |s| ==>
              Resume(Drain(Init, s[..n], tokens), s[n..], tokens).lines == Drain(Init, s, tokens).lines
  {
    hide Clean, Drain, Resume;
    if Clean(Init, s, tokens) {
      forall n | 0 <= n <= |s|
        ensures Resume(Drain(Init, s[..n], tokens), s[n..], tokens).lines == Drain(Init, s, tokens).lines
      {
        assert s == s[..n] + s[n..];
        DrainSplits(Init, s[..n], s[n..], tokens);
      }
    } else {
      var n := DirtyCut(Init, s, tokens);
    }
  }

  /** Streams whose LFs all follow a CR are clean. */
  predicate CrlfOnly(s: bytes) { forall i :: 0 < i < |s| && s[i] == LF ==> s[i - 1] == CR }

  lemma {:induction false} CrlfOnlyClean(st: State, s: bytes, tokens: bytes -> seq<bytes>)
    requires CrlfOnly(s) && (st.Inline? ==> s == [] || s[0] != LF)
    ensures Clean(st, s, tokens)
    decreases |s|, if st.Init? then 1 else 0
  {
    hide Step;
    StepShrinks(st, s, tokens);
    var t := Step(st, s, tokens);
    if t.More? || t.Done? {
      TurnRest(st, s, tokens);
      CrlfOnlyClean(if t.More? then t.state else Init, t.rest, tokens);
    }
  }

  /** A bare LF before a CRLF is taken as part of the line in one piece, but ends the line if the stream is cut there. */
  lemma BareLfMatters()
    ensures var s: bytes := [65, LF, 66, CR, LF];
            var words := (line: bytes) => [line];
            && Drain(Init, s, words).commands == [[Str([65, LF, 66])]]
            && Resume(Drain(Init, s[..2], words), s[2..], words).commands == [[Str([65])], [Str([66])]]
  {
    var s: bytes := [65, LF, 66, CR, LF];
    var words := (line: bytes) => [line];
    assert s[3] == CR && s[4] == LF;
    assert FirstCrlf(s) == 3;
    assert s[..3] == [65, LF, 66] && s[5..] == [];
    OneWord(s, [65, LF, 66], [], words);
    var a, b: bytes := [65, LF], [66, CR, LF];
    assert s[..2] == a && s[2..] == b;
    assert IndexOf(a, LF) == 1 && FirstCrlf(a) == 2;
    assert a[..1] == [65] && a[2..] == [];
    OneWord(a, [65], [], words);
    assert b[1] == CR && b[2] == LF;
    assert FirstCrlf(b) == 1;
    assert b[..1] == [66] && b[3..] == [];
    OneWord(b, [66], [], words);
    assert [] + b == b;
  }

  lemma OneWord(s: bytes, word: bytes, rest: bytes, words: bytes -> seq<bytes>)
    requires s != [] && s[0] != CR && s[0] != LF && s[0] != STAR
    requires ConsumeLine(s) == Some(Line(word, rest)) && words(word) == [word] && rest == []
    ensures Drain(Init, s, words) == Drained([[Str(word)]], [word], Waiting(Init, []))
  {
    hide ConsumeLine;
    assert Step(Init, s, words) == More(Inline, s);
    assert Step(Inline, s, words) == Done([Str(word)], rest);
    assert Drain(Init, [], words) == Drained([], [], Waiting(Init, []));
    assert Drain(Inline, s, words) == Before([[Str(word)]], [word], Drain(Init, rest, words));
  }

  /** A header that is no number, with a bare LF: `*x`, LF, `y`, CRLF. */
  const BAD_HEADER: bytes := [STAR, 120, LF, 121, CR, LF]

  lemma NoNumber(s: bytes)
    requires s == [120] || s == [120, LF, 121]
    ensures ParseTrimmed(s).None?
  {
    assert SpaceAt(s) == 0 && SpaceBefore(s) == 0;
    assert DigitsValue(s).None? by {
      assert s[..|s| - 1][..0] == [];
    }
  }

  lemma BadHeaderLine(buf: bytes)
    requires buf <= BAD_HEADER && |buf| > 2
    ensures ConsumeLine(buf).Some?
    ensures Tail(ConsumeLine(buf).value.text) == if |buf| < 6 then [120] else [120, LF, 121]
    ensures LineStable(buf) <==> |buf| < 6
  {
    assert buf[0] != LF && buf[1] != LF && buf[2] == LF;
    assert IndexOf(buf, LF) == 2;
    hide IndexOf;
    if |buf| < 6 {
      assert FirstCrlf(buf) == |buf|;
    } else {
      assert buf[4] == CR && buf[5] == LF;
      assert FirstCrlf(buf) == 4;
    }
  }

  lemma BadHeaderFails(buf: bytes, tokens: bytes -> seq<bytes>)
    requires buf <= BAD_HEADER && |buf| > 2
    ensures Drain(Init, buf, tokens).commands == [] && Drain(Init, buf, tokens).end == Broken(BadArrayLen)
    ensures Clean(Init, buf, tokens) <==> |buf| < 6
  {
    hide ConsumeLine, LineStable, ParseTrimmed, Tail;
    BadHeaderLine(buf);
    NoNumber(Tail(ConsumeLine(buf).value.text));
    assert WantsLine(Init, buf);
    assert Step(Init, buf, tokens).Fail?;
  }

  lemma BadHeaderWaits(buf: bytes, tokens: bytes -> seq<bytes>)
    requires buf <= BAD_HEADER && |buf| <= 2
    ensures Drain(Init, buf, tokens) == Drained([], [], Waiting(Init, buf))
  {
    hide ConsumeLine;
    LineMeaning(buf);
    assert Step(Init, buf, tokens) == Wait;
  }

  /** A stream that is not clean may still give the same commands and the same end however it is cut. */
  lemma HarmlessDirt(tokens: bytes -> seq<bytes>, n: nat)
    requires n <= |BAD_HEADER|
    ensures !Clean(Init, BAD_HEADER, tokens)
    ensures var whole, cut := Drain(Init, BAD_HEADER, tokens), Resume(Drain(Init, BAD_HEADER[..n], tokens), BAD_HEADER[n..], tokens);
            cut.commands == whole.commands && cut.end == whole.end
  {
    hide Drain, Clean;
    BadHeaderFails(BAD_HEADER, tokens);
    if n > 2 {
      BadHeaderFails(BAD_HEADER[..n], tokens);
    } else {
      BadHeaderWaits(BAD_HEADER[..n], tokens);
      assert BAD_HEADER[..n] + BAD_HEADER[n..] == BAD_HEADER;
    }
  }
}
