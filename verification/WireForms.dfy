/** Everything a client may write, element by element, and what the parser makes of it. */
module WireForms {
  import opened Common
  import opened Decimal
  import opened RespProtocol
  import opened Replies
  import Collect

  /** The forms of an array element: `$` with its bytes, the null `$-1`, `+`, `:` and `-`. */
  datatype Form = Bulk(data: bytes) | NullBulk | Simple(text: bytes) | Number(n: int) | Failure(text: bytes)

  /** Text lines hold no CR; numbers are 64 bits wide. */
  predicate Sendable(f: Form) {
    match f
    case Bulk(data) => |data| <= 536870912
    case NullBulk => true
    case Simple(text) => CR !in text
    case Number(n) => InI64(n)
    case Failure(text) => CR !in text
  }

  /** The bytes of a form, its mark written out. */
  function Written(f: Form): bytes {
    match f
    case Bulk(data) => [36] + ToDecimal(|data|) + [13, 10] + data + [13, 10]
    case NullBulk => [36, 45, 49, 13, 10]
    case Simple(text) => [43] + text + [13, 10]
    case Number(n) => [58] + ToDecimal(n) + [13, 10]
    case Failure(text) => [45] + text + [13, 10]
  }

  function AllWritten(fs: seq<Form>): bytes { if fs == [] then [] else Written(fs[0]) + AllWritten(fs[1..]) }

  /** The argument that a form stands for. */
  function Denoted(f: Form): Expr {
    match f
    case Bulk(data) => Str(data)
    case NullBulk => Nil
    case Simple(text) => Str(text)
    case Number(n) => Int(n)
    case Failure(text) => Error(text)
  }

  // ---- One element ----

  /** A mark and a text without CR make a line. */
  lemma MarkedLine(mark: byte, text: bytes, after: bytes)
    requires CR !in text && mark != CR
    ensures var buf := [mark] + text + [13, 10] + after;
            && ConsumeLine(buf) == Some(Line([mark] + text, after)) && Tail([mark] + text) == text && buf[0] == mark
  {
    hide ConsumeLine;
    LineOf([mark] + text, after);
    assert [mark] + text + [13, 10] + after == [mark] + text + CRLF + after;
  }

  ghost predicate Pushes(n: nat, args: Args, f: Form, after: bytes, tokens: bytes -> seq<bytes>) {
    RespProtocol.Parse(Array(n, args), Written(f) + after, tokens) ==
    if |args| + 1 == n then Parsed(Complete(args + [Denoted(f)]), Init, after)
    else RespProtocol.Parse(Array(n, args + [Denoted(f)]), after, tokens)
  }

  lemma LineForm(n: nat, args: Args, mark: byte, text: bytes, after: bytes, tokens: bytes -> seq<bytes>)
    requires |args| < n && CR !in text && ElementKind(mark)
    ensures var buf := [mark] + text + [13, 10] + after;
            Step(Array(n, args), buf, tokens) == Element(n, args, mark, Line([mark] + text, after))
  {
    hide ConsumeLine, Element;
    MarkedLine(mark, text, after);
  }

  lemma TextForm(n: nat, args: Args, f: Form, after: bytes, tokens: bytes -> seq<bytes>)
    requires |args| < n && Sendable(f) && (f.Simple? || f.Failure?)
    ensures Pushes(n, args, f, after, tokens)
  {
    hide ParseTrimmed;
    var mark: byte := if f.Simple? then 43 else 45;
    LineForm(n, args, mark, f.text, after, tokens);
    assert Tail([mark] + f.text) == f.text;
    hide Step;
  }

  lemma NumberForm(n: nat, args: Args, f: Form, after: bytes, tokens: bytes -> seq<bytes>)
    requires |args| < n && Sendable(f) && f.Number?
    ensures Pushes(n, args, f, after, tokens)
  {
    hide ParseTrimmed, ToDecimal;
    DecimalBytes(f.n);
    DecimalRoundTrip(f.n);
    LineForm(n, args, 58, ToDecimal(f.n), after, tokens);
    assert Tail([58] + ToDecimal(f.n)) == ToDecimal(f.n);
    hide Step;
  }

  lemma MinusOne()
    ensures ToDecimal(-1) == [45, 49]
  {
    assert Digits(1) == [49];
  }

  lemma NullForm(n: nat, args: Args, after: bytes, tokens: bytes -> seq<bytes>)
    requires |args| < n
    ensures Pushes(n, args, NullBulk, after, tokens)
  {
    hide ParseTrimmed, ToDecimal, Step;
    MinusOne();
    DecimalRoundTrip(-1);
    DecimalBytes(-1);
    var text := ToDecimal(-1);
    LineForm(n, args, 36, text, after, tokens);
    assert Tail([36] + text) == text;
    assert Written(NullBulk) == [36] + text + [13, 10];
  }

  lemma BulkForm(n: nat, args: Args, data: bytes, after: bytes, tokens: bytes -> seq<bytes>)
    requires |args| < n && |data| <= 536870912
    ensures Pushes(n, args, Form.Bulk(data), after, tokens)
  {
    hide RespProtocol.Parse, ToDecimal;
    ElementParse(n, args, data, after, tokens);
    assert Written(Form.Bulk(data)) == BulkReply(data);
  }

  lemma FormParse(n: nat, args: Args, f: Form, after: bytes, tokens: bytes -> seq<bytes>)
    requires |args| < n && Sendable(f)
    ensures Pushes(n, args, f, after, tokens)
  {
    hide Pushes;
    match f
    case Bulk(data) => BulkForm(n, args, data, after, tokens);
    case NullBulk => NullForm(n, args, after, tokens);
    case Number(_) => NumberForm(n, args, f, after, tokens);
    case Simple(_) => TextForm(n, args, f, after, tokens);
    case Failure(_) => TextForm(n, args, f, after, tokens);
  }

  // ---- Whole arrays ----

  function AllDenoted(fs: seq<Form>): Args { seq(|fs|, i requires 0 <= i < |fs| => Denoted(fs[i])) }

  lemma {:induction false} FormsParse(n: nat, args: Args, fs: seq<Form>, tail: bytes, tokens: bytes -> seq<bytes>)
    requires |args| + |fs| == n && fs != [] && forall i :: 0 <= i < |fs| ==> Sendable(fs[i])
    ensures RespProtocol.Parse(Array(n, args), AllWritten(fs) + tail, tokens) == Parsed(Complete(args + AllDenoted(fs)), Init, tail)
    decreases |fs|
  {
    hide Written, RespProtocol.Parse, Denoted, Sendable;
    var rest := fs[1..];
    FormParse(n, args, fs[0], AllWritten(rest) + tail, tokens);
    assert AllWritten(fs) + tail == Written(fs[0]) + (AllWritten(rest) + tail) by {
      Collect.Joined(Written(fs[0]), AllWritten(rest), tail);
    }
    assert args + AllDenoted(fs) == args + [Denoted(fs[0])] + AllDenoted(rest);
    if |fs| > 1 {
      FormsParse(n, args + [Denoted(fs[0])], rest, tail, tokens);
    } else {
      NothingWritten(rest, tail);
      assert args + AllDenoted(fs) == args + [Denoted(fs[0])];
    }
  }

  /**
   An array of any elements arrives element by element, in order, whatever follows it: `+` and `$` as
   strings, `$-1` as nil, `:` as the number, `-` as the error text.
   */
  lemma ArrayArrives(fs: seq<Form>, tail: bytes, tokens: bytes -> seq<bytes>)
    requires |fs| <= 1048576 && forall i :: 0 <= i < |fs| ==> Sendable(fs[i])
    ensures var p := RespProtocol.Parse(Init, [42] + ToDecimal(|fs|) + [13, 10] + AllWritten(fs) + tail, tokens);
            && p.result.Complete? && p.state == Init && p.rest == tail
            && |p.result.args| == |fs| && forall i :: 0 <= i < |fs| ==> p.result.args[i] == Denoted(fs[i])
  {
    hide ParseTrimmed, ToDecimal, AllWritten, ConsumeLine, Sendable, Denoted;
    var n, body := |fs|, AllWritten(fs) + tail;
    var buf := [42] + ToDecimal(n) + [13, 10] + body;
    assert [42] + ToDecimal(n) + [13, 10] + AllWritten(fs) + tail == buf;
    DecimalBytes(n);
    DecimalRoundTrip(n);
    MarkedLine(42, ToDecimal(n), body);
    if n == 0 {
      assert Step(Init, buf, tokens) == Done([], body);
      NothingWritten(fs, tail);
    } else {
      assert Step(Init, buf, tokens) == More(Array(n, []), body);
      FormsParse(n, [], fs, tail, tokens);
      assert [] + AllDenoted(fs) == AllDenoted(fs);
    }
  }

  lemma NothingWritten(fs: seq<Form>, tail: bytes)
    requires fs == []
    ensures AllWritten(fs) + tail == tail
  {}

  // ---- Lines without an array ----

  /**
   Any other line is a command of its words, in order; without words, or empty, it is skipped. What
   follows is left alone.
   */
  lemma LineArrives(text: bytes, tail: bytes, tokens: bytes -> seq<bytes>)
    requires CR !in text && (text != [] ==> text[0] != 42 && text[0] != LF)
    ensures var p := RespProtocol.Parse(Init, text + [13, 10] + tail, tokens);
            if text == [] || tokens(text) == [] then p == RespProtocol.Parse(Init, tail, tokens)
            else
              && p.result.Complete? && p.state == Init && p.rest == tail
              && |p.result.args| == |tokens(text)|
              && forall i :: 0 <= i < |tokens(text)| ==> p.result.args[i] == Str(tokens(text)[i])
  {
    hide ConsumeLine;
    var buf := text + [13, 10] + tail;
    if text == [] {
      assert buf[1..][1..] == tail;
      assert Step(Init, buf, tokens) == More(Init, buf[1..]) && Step(Init, buf[1..], tokens) == More(Init, tail);
    } else {
      LineOf(text, tail);
      assert buf == text + CRLF + tail && buf[0] == text[0];
      assert Step(Init, buf, tokens) == More(Inline, buf);
      assert Step(Inline, buf, tokens) == InlineCommand(Line(text, tail), tokens);
    }
  }

  // ---- Counts that are refused ----

  /** An array of a negative number of elements or too many, and a bulk string of such a length, are errors. */
  lemma BadCounts(n: int, tail: bytes, tokens: bytes -> seq<bytes>)
    requires InI64(n)
    ensures n < 0 || n > 1048576 ==>
              RespProtocol.Parse(Init, [42] + ToDecimal(n) + [13, 10] + tail, tokens) == Parsed(Failed(BadArrayLen), Init, tail)
    ensures n < -1 || n > 536870912 ==>
              forall k: nat, args :: |args| < k ==>
                RespProtocol.Parse(Array(k, args), [36] + ToDecimal(n) + [13, 10] + tail, tokens) == Parsed(Failed(BadBulkLen), Init, tail)
  {
    hide ParseTrimmed, ToDecimal, ConsumeLine;
    DecimalBytes(n);
    DecimalRoundTrip(n);
    MarkedLine(42, ToDecimal(n), tail);
    MarkedLine(36, ToDecimal(n), tail);
  }

  /** Counts and numbers that are none, and elements of no known form, are refused. */
  lemma BadTexts(text: bytes, tail: bytes, tokens: bytes -> seq<bytes>, k: nat, args: Args, mark: byte)
    requires CR !in text && ParseTrimmed(text) == None && |args| < k
    ensures RespProtocol.Parse(Init, [42] + text + [13, 10] + tail, tokens) == Parsed(Failed(BadArrayLen), Init, tail)
    ensures RespProtocol.Parse(Array(k, args), [36] + text + [13, 10] + tail, tokens) == Parsed(Failed(BadBulkLen), Init, tail)
    ensures RespProtocol.Parse(Array(k, args), [58] + text + [13, 10] + tail, tokens) == Parsed(Failed(BadInteger), Init, tail)
    ensures mark != 36 && mark != 43 && mark != 45 && mark != 58 ==>
              RespProtocol.Parse(Array(k, args), [mark] + tail, tokens) == Parsed(Failed(BadProtocol), Init, [mark] + tail)
  {
    hide ParseTrimmed, ConsumeLine;
    MarkedLine(42, text, tail);
    MarkedLine(36, text, tail);
    MarkedLine(58, text, tail);
  }

  // ---- Replies ----

  function Shown(v: Option<bytes>): Form { if v.Some? then Form.Bulk(v.value) else NullBulk }

  function AllShown(vs: seq<Option<bytes>>): (fs: seq<Form>)
    ensures |fs| == |vs| && forall i :: 0 <= i < |vs| ==> fs[i] == Shown(vs[i])
  {
    if vs == [] then [] else [Shown(vs[0])] + AllShown(vs[1..])
  }

  /** Replies are written in the same forms. */
  lemma {:induction false} RepliesAreForms(n: int, vs: seq<Option<bytes>>)
    ensures IntegerReply(n) == Written(Number(n))
    ensures ArrayReply(vs) == [42] + ToDecimal(|vs|) + [13, 10] + AllWritten(AllShown(vs))
    decreases |vs|
  {
    hide ToDecimal;
    ValuesAreForms(vs);
  }

  lemma {:induction false} ValuesAreForms(vs: seq<Option<bytes>>)
    ensures OptionReplies(vs) == AllWritten(AllShown(vs))
    decreases |vs|
  {
    hide ToDecimal;
    if vs != [] {
      ValuesAreForms(vs[1..]);
      assert AllShown(vs)[1..] == AllShown(vs[1..]);
      ValueIsForm(vs[0]);
    }
  }

  lemma ValueIsForm(v: Option<bytes>)
    ensures OptionReply(v) == Written(Shown(v))
  {
    hide ToDecimal;
  }

  /** What a client reads of an array reply with this parser is what was sent: the values in order, nil for none. */
  lemma RepliesArrive(vs: seq<Option<bytes>>, tail: bytes, tokens: bytes -> seq<bytes>)
    requires |vs| <= 1048576 && forall i :: 0 <= i < |vs| && vs[i].Some? ==> |vs[i].value| <= 536870912
    ensures var p := RespProtocol.Parse(Init, ArrayReply(vs) + tail, tokens);
            && p.result.Complete? && p.rest == tail && |p.result.args| == |vs|
            && forall i :: 0 <= i < |vs| ==> p.result.args[i] == if vs[i].Some? then Str(vs[i].value) else Nil
  {
    hide RespProtocol.Parse, ToDecimal, ArrayReply, AllWritten;
    RepliesAreForms(0, vs);
    ArrayArrives(AllShown(vs), tail, tokens);
  }
}
