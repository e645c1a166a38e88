/** The gather side: reading integers and arrays back out of shard replies. */
module Gather {
  import opened Common
  import opened Decimal
  import opened RespProtocol
  import opened Replies

  function ParseInteger(data: bytes): Option<int> {
    if data == [] || data[0] != COLON then None
    else
      var end := IndexOf(data, CR);
      if end == |data| then None else ParseI64(data[1..end])
  }

  datatype Read = Item(value: Option<bytes>, next: nat) | Skip(next: nat) | Truncated

  /** What stands at position `pos`. */
  function ReadAt(data: bytes, pos: nat): (r: Read)
    requires pos < |data|
    ensures !r.Truncated? ==> r.next > pos
  {
    if data[pos] == DOLLAR then
      var end := IndexOf(data, CR, pos + 1);
      var n := ParseI64(data[pos + 1..end]);
      var start := end + 2;
      if n.None? || n.value < 0 then Item(None, start)
      else if start + n.value <= |data| then Item(Some(data[start..start + n.value]), start + n.value + 2)
      else Truncated
    else Skip(IndexOf(data, LF, pos) + 1)
  }

  /** The elements from position `pos` on. */
  function Elements(data: bytes, pos: nat): seq<Option<bytes>>
    decreases |data| - pos
  {
    if pos >= |data| then []
    else
      match ReadAt(data, pos)
      case Item(v, next) => [v] + Elements(data, next)
      case Skip(next) => Elements(data, next)
      case Truncated => []
  }

  function ArrayValues(data: bytes): seq<Option<bytes>> {
    if data == [] || data[0] != STAR then [] else Elements(data, IndexOf(data, LF) + 1)
  }

  method ReadElement(data: bytes, pos: nat) returns (r: Read)
    requires pos < |data|
    ensures r == ReadAt(data, pos)
  {
    hide ParseI64, IndexOf;
    if data[pos] == DOLLAR {
      var end := SkipTo(data, CR, pos + 1);
      var parsed := ParseI64(data[pos + 1..end]);
      var len := if parsed.Some? then parsed.value else -1;
      var start := end + 2;
      if len < 0 {
        return Item(None, start);
      } else if start + len <= |data| {
        return Item(Some(data[start..start + len]), start + len + 2);
      }
      return Truncated;
    }
    var end := SkipTo(data, LF, pos);
    return Skip(end + 1);
  }

  /** Parse a RESP array of bulk strings with one moving index. */
  method ParseArray(data: bytes) returns (results: seq<Option<bytes>>)
    ensures results == ArrayValues(data)
  {
    hide ReadAt, IndexOf;
    results := [];
    if data == [] || data[0] != STAR {
      return;
    }
    ghost var all := ArrayValues(data);
    var pos := SkipTo(data, LF, 0);
    pos := pos + 1;
    while pos < |data|
      invariant results + Elements(data, pos) == all
      decreases |data| - pos
    {
      var r := ReadElement(data, pos);
      match r {
        case Item(v, next) =>
          results := results + [v];
          pos := next;
        case Skip(next) =>
          pos := next;
        case Truncated =>
          return;
      }
    }
  }

  method SkipTo(data: bytes, b: byte, from: nat) returns (pos: nat)
    requires from <= |data|
    ensures pos == IndexOf(data, b, from)
  {
    pos := from;
    while pos < |data| && data[pos] != b
      invariant from <= pos <= |data|
      invariant IndexOf(data, b, from) == IndexOf(data, b, pos)
    {
      pos := pos + 1;
    }
  }

  /** Reading an integer reply inverts printing it, for every i64. */
  lemma IntegerRoundTrip(n: int)
    requires InI64(n)
    ensures ParseInteger(IntegerReply(n)) == Some(n)
  {
    hide ToDecimal, ParseI64;
    var data, text := IntegerReply(n), ToDecimal(n);
    DecimalBytes(n);
    DecimalRoundTrip(n);
    assert data == [COLON] + text + CRLF;
    assert data[|text| + 1] == CR;
    assert forall i :: 0 < i <= |text| ==> data[i] == text[i - 1];
    assert IndexOf(data, CR) == |text| + 1;
    assert data[1..|text| + 1] == text;
  }

  predicate Printable(vs: seq<Option<bytes>>) {
    InI64(|vs|) && forall i :: 0 <= i < |vs| && vs[i].Some? ==> InI64(|vs[i].value|)
  }

  /** A line of text without CR behind a mark. */
  lemma LineAt(pre: bytes, text: bytes, rest: bytes)
    requires CR !in text
    ensures var data := pre + ([DOLLAR] + text + CRLF) + rest; var pos := |pre|; var end := pos + 1 + |text|;
            && end + 2 <= |data| && data[pos] == DOLLAR && data[pos + 1..end] == text && data[end + 2..] == rest
            && IndexOf(data, CR, pos + 1) == end
  {
    hide IndexOf;
    var data, pos := pre + ([DOLLAR] + text + CRLF) + rest, |pre|;
    var end := pos + 1 + |text|;
    assert data[end] == CR;
    assert data[pos + 1..end] == text;
    assert forall i :: pos < i < end ==> data[i] == text[i - pos - 1] && data[i] in text;
  }

  /** The length line of a bulk string or null at position `|pre|`. */
  lemma LengthAt(pre: bytes, n: int, rest: bytes)
    requires InI64(n)
    ensures var data := pre + Header(DOLLAR, n) + rest; var pos := |pre|; var end := pos + 1 + |ToDecimal(n)|;
            && pos + 1 <= |data| && data[pos] == DOLLAR && IndexOf(data, CR, pos + 1) == end
            && end + 2 <= |data| && data[end + 2..] == rest
            && ParseI64(data[pos + 1..end]) == Some(n)
    ensures |Header(DOLLAR, n)| == |ToDecimal(n)| + 3
  {
    hide ToDecimal, ParseI64, IndexOf;
    DecimalBytes(n);
    DecimalRoundTrip(n);
    LineAt(pre, ToDecimal(n), rest);
  }

  lemma NullIsMinusOne()
    ensures NullReply() == Header(DOLLAR, -1)
  {
    assert Digits(1) == [49];
  }

  /** Reading at the start of a printed value gives that value and the position behind it. */
  lemma ReadValue(pre: bytes, v: Option<bytes>, rest: bytes)
    requires v.Some? ==> InI64(|v.value|)
    ensures var data := pre + OptionReply(v) + rest;
            && |pre| < |data|
            && ReadAt(data, |pre|) == Item(v, |pre + OptionReply(v)|)
  {
    hide ParseI64, IndexOf, Header, NullReply, ToDecimal;
    var data := pre + OptionReply(v) + rest;
    if v.Some? {
      var d := v.value;
      var rest' := d + CRLF + rest;
      assert data == pre + Header(DOLLAR, |d|) + rest';
      LengthAt(pre, |d|, rest');
      var start := |pre| + 3 + |ToDecimal(|d|)|;
      assert data[start..][..|d|] == d;
      assert data[start..start + |d|] == d;
    } else {
      NullIsMinusOne();
      LengthAt(pre, -1, rest);
    }
  }

  lemma {:induction false} ElementsOf(pre: bytes, vs: seq<Option<bytes>>)
    requires Printable(vs)
    ensures Elements(pre + OptionReplies(vs), |pre|) == vs
    decreases |vs|
  {
    hide ReadAt, OptionReply;
    if vs != [] {
      var data := pre + OptionReplies(vs);
      var pre' := pre + OptionReply(vs[0]);
      assert data == pre + OptionReply(vs[0]) + OptionReplies(vs[1..]);
      assert data == pre' + OptionReplies(vs[1..]);
      ReadValue(pre, vs[0], OptionReplies(vs[1..]));
      ElementsOf(pre', vs[1..]);
    }
  }

  /** Reading an array reply inverts printing it, whatever bytes the values contain. */
  lemma ArrayRoundTrip(vs: seq<Option<bytes>>)
    requires Printable(vs)
    ensures ArrayValues(ArrayReply(vs)) == vs
  {
    hide ToDecimal, Elements;
    var data, text := ArrayReply(vs), ToDecimal(|vs|);
    DecimalBytes(|vs|);
    assert data == [STAR] + text + CRLF + OptionReplies(vs);
    assert data[|text| + 2] == LF;
    assert forall i :: 0 < i <= |text| ==> data[i] == text[i - 1];
    assert IndexOf(data, LF) == |text| + 2;
    assert |Header(STAR, |vs|)| == |text| + 3;
    ElementsOf(Header(STAR, |vs|), vs);
  }
}
