/** The bytes of an RDB file: what the saver writes and how the loader reads them. */
module RdbFormat {
  import opened Common
  import opened Decimal
  import opened PrimeValues
  import opened Words

  const TYPE_STRING: byte := 0
  const SLOT_INFO: byte := 244
  const FUNCTION2: byte := 245
  const FUNCTION: byte := 246
  const MODULE_AUX: byte := 247
  const IDLE: byte := 248
  const FREQ: byte := 249
  const AUX: byte := 250
  const RESIZEDB: byte := 251
  const EXPIRETIME_MS: byte := 252
  const EXPIRETIME: byte := 253
  const SELECTDB: byte := 254
  const EOF: byte := 255

  type Size = x: int | 0 <= x < 0x1_0000_0000_0000_0000

  // ---- What the saver writes ----

  /** A length in 1, 2, 5 or 9 bytes. */
  function Length(len: Size): bytes {
    if len < 64 then [len as byte]
    else if len < 16384 then [(0x40 + len / 256) as byte, (len % 256) as byte]
    else if len <= 0xffff_ffff then [0x80] + Be(len, 4)
    else [0x81] + Be(len, 8)
  }

  predicate InBytes(n: int, size: nat) { 0 <= 2 * n + Pow256(size) && 2 * n < Pow256(size) }

  /** An integer in one, two or four bytes, or as text. */
  function IntegerText(n: int): bytes
    requires InI64(n)
  {
    if InBytes(n, 1) then [0xC0] + Le(Truncate(n, 1), 1)
    else if InBytes(n, 2) then [0xC1] + Le(Truncate(n, 2), 2)
    else if InBytes(n, 4) then [0xC2] + Le(Truncate(n, 4), 4)
    else
      DecimalLength(n);
      Length(|ToDecimal(n)|) + ToDecimal(n)
  }

  lemma {:induction false} DigitsLength(n: nat)
    ensures |Digits(n)| <= n + 1
  {
    if n >= 10 {
      DigitsLength(n / 10);
    }
  }

  lemma DecimalLength(n: int)
    requires InI64(n)
    ensures |ToDecimal(n)| <= 0x8000_0000_0000_0002
  {
    DigitsLength(if n < 0 then -n else n);
  }

  /** The number that a text stands for, if printing the number gives the text back. */
  function CanonicalInteger(data: bytes): (r: Option<int>)
    ensures r.Some? ==> InI64(r.value) && ToDecimal(r.value) == data
  {
    var n := ParseI64(data);
    if n.Some? && ToDecimal(n.value) == data then n else None
  }

  function Text(data: bytes): bytes
    requires |data| < 0x1_0000_0000_0000_0000
  {
    var n := CanonicalInteger(data);
    if |data| <= 11 && n.Some? then IntegerText(n.value) else Length(|data|) + data
  }

  /** A value that the source can hold: an integer fits, and sizes fit in a u64. */
  predicate Storable(v: PrimeValue) {
    match v
    case String(s) => |s| < 0x1_0000_0000_0000_0000
    case Integer(n) => InI64(n)
    case Collection(_, _) => true
  }

  function Deadline(expire: Option<Time>): bytes {
    match expire
    case Some(ms) => [EXPIRETIME_MS] + Le(ms, 8)
    case None => []
  }

  function Payload(v: PrimeValue): bytes
    requires Storable(v) && IsString(v)
  {
    match v
    case String(s) => Text(s)
    case Integer(n) => IntegerText(n)
  }

  /** A key with its value: nothing but the deadline is written for a collection. */
  function Pair(key: bytes, v: PrimeValue, expire: Option<Time>): bytes
    requires |key| < 0x1_0000_0000_0000_0000 && Storable(v)
  {
    Deadline(expire) + if IsString(v) then [TYPE_STRING] + Text(key) + Payload(v) else []
  }

  // ---- How the loader reads ----

  datatype RdbError =
    | BadMagic
    | UnsupportedVersion(version: nat)
    | UnsupportedType(code: byte)
    | UnexpectedEof
    | CrcMismatch(expected: nat, actual: nat)
    | Corrupt

  /** A value read and the position behind it, or the error. */
  datatype Read<+T> = Got(value: T, pos: nat) | Bad(error: RdbError)

  function Take(data: bytes, pos: nat, n: nat): (r: Read<bytes>)
    requires pos <= |data|
    ensures r.Got? ==> r.pos == pos + n <= |data| && |r.value| == n
  {
    if pos + n <= |data| then Got(data[pos..pos + n], pos + n) else Bad(UnexpectedEof)
  }

  datatype LengthRead = LengthRead(len: nat, encoded: bool)

  function ReadLength(data: bytes, pos: nat): (r: Read<LengthRead>)
    requires pos <= |data|
    ensures r.Got? ==> pos < r.pos <= |data|
  {
    if pos == |data| then Bad(UnexpectedEof)
    else
      var first := data[pos];
      var low := (first % 64) as nat;
      match first / 64
      case 0 => Got(LengthRead(low, false), pos + 1)
      case 1 =>
        (match Take(data, pos + 1, 1)
         case Bad(e) => Bad(e)
         case Got(s, p) => Got(LengthRead(256 * low + s[0] as nat, false), p))
      case 2 =>
        if low == 0 then
          (match Take(data, pos + 1, 4)
           case Bad(e) => Bad(e)
           case Got(s, p) => Got(LengthRead(BeValue(s), false), p))
        else if low == 1 then
          (match Take(data, pos + 1, 8)
           case Bad(e) => Bad(e)
           case Got(s, p) => Got(LengthRead(BeValue(s), false), p))
        else Bad(Corrupt)
      case _ => Got(LengthRead(low, true), pos + 1)
  }

  function ReadSigned(data: bytes, pos: nat, size: nat): (r: Read<bytes>)
    requires pos <= |data|
    ensures r.Got? ==> r.pos == pos + size <= |data|
  {
    match Take(data, pos, size)
    case Bad(e) => Bad(e)
    case Got(s, p) => Got(ToDecimal(Signed(LeValue(s), size)), p)
  }

  /** A compressed string is skipped and read as empty. */
  function ReadCompressed(data: bytes, pos: nat): (r: Read<bytes>)
    requires pos <= |data|
    ensures r.Got? ==> pos < r.pos <= |data|
  {
    match ReadLength(data, pos)
    case Bad(e) => Bad(e)
    case Got(packed, p) =>
      match ReadLength(data, p)
      case Bad(e) => Bad(e)
      case Got(_, q) =>
        match Take(data, q, packed.len)
        case Bad(e) => Bad(e)
        case Got(_, end) => Got([], end)
  }

  function ReadText(data: bytes, pos: nat): (r: Read<bytes>)
    requires pos <= |data|
    ensures r.Got? ==> pos < r.pos <= |data|
  {
    match ReadLength(data, pos)
    case Bad(e) => Bad(e)
    case Got(l, p) =>
      if !l.encoded then Take(data, p, l.len)
      else match l.len
           case 0 => ReadSigned(data, p, 1)
           case 1 => ReadSigned(data, p, 2)
           case 2 => ReadSigned(data, p, 4)
           case 3 => ReadCompressed(data, p)
           case _ => Bad(Corrupt)
  }

  // ---- Reading back what was written ----

  /** `part` stands in `data` from `pos` on. */
  predicate At(data: bytes, pos: nat, part: bytes) { pos + |part| <= |data| && data[pos..pos + |part|] == part }

  lemma AtSplit(data: bytes, pos: nat, a: bytes, b: bytes)
    ensures At(data, pos, a + b) <==> At(data, pos, a) && At(data, pos + |a|, b)
  {
    if pos + |a| + |b| <= |data| {
      var all := data[pos..pos + |a + b|];
      assert all[..|a|] == data[pos..pos + |a|] && all[|a|..] == data[pos + |a|..pos + |a| + |b|];
      assert (a + b)[..|a|] == a && (a + b)[|a|..] == b;
      if data[pos..pos + |a|] == a && data[pos + |a|..pos + |a| + |b|] == b {
        assert all == all[..|a|] + all[|a|..];
      }
    }
  }

  lemma AtFirst(data: bytes, pos: nat, b: byte)
    requires At(data, pos, [b])
    ensures pos < |data| && data[pos] == b
  {
    assert data[pos..pos + 1][0] == b;
  }

  lemma LengthRoundTrip(data: bytes, pos: nat, len: Size)
    requires At(data, pos, Length(len))
    ensures pos <= |data| && ReadLength(data, pos) == Got(LengthRead(len, false), pos + |Length(len)|)
  {
    hide Be, BeValue, Pow256, At;
    Powers();
    if len < 64 {
      AtFirst(data, pos, len as byte);
    } else if len < 16384 {
      var a, b := (0x40 + len / 256) as byte, (len % 256) as byte;
      assert Length(len) == [a] + [b];
      AtSplit(data, pos, [a], [b]);
      AtFirst(data, pos, a);
      AtFirst(data, pos + 1, b);
    } else if len <= 0xffff_ffff {
      WideLength(data, pos, 0x80, 4, len);
    } else {
      WideLength(data, pos, 0x81, 8, len);
    }
  }

  lemma WideLength(data: bytes, pos: nat, first: byte, n: nat, len: nat)
    requires At(data, pos, [first] + Be(len, n)) && len < Pow256(n)
    ensures pos < |data| && data[pos] == first
    ensures Take(data, pos + 1, n).Got? && BeValue(Take(data, pos + 1, n).value) == len
  {
    hide Be, BeValue, Pow256;
    AtSplit(data, pos, [first], Be(len, n));
    AtFirst(data, pos, first);
    BeRoundTrip(len, n);
  }

  lemma SmallInteger(data: bytes, pos: nat, first: byte, size: nat, n: int)
    requires At(data, pos, [first] + Le(Truncate(n, size), size)) && InBytes(n, size)
    ensures pos < |data| && data[pos] == first
    ensures ReadSigned(data, pos + 1, size) == Got(ToDecimal(n), pos + 1 + size)
  {
    hide Le, LeValue, Pow256, ToDecimal, Signed, Truncate;
    var s := Le(Truncate(n, size), size);
    AtSplit(data, pos, [first], s);
    AtFirst(data, pos, first);
    LeRoundTrip(Truncate(n, size), size);
    SignedRoundTrip(n, size);
  }

  lemma PlainText(data: bytes, pos: nat, s: bytes)
    requires |s| < 0x1_0000_0000_0000_0000 && At(data, pos, Length(|s|) + s)
    ensures pos <= |data| && ReadText(data, pos) == Got(s, pos + |Length(|s|) + s|)
  {
    hide Length, ReadLength;
    AtSplit(data, pos, Length(|s|), s);
    LengthRoundTrip(data, pos, |s|);
  }

  /** Every integer, in whichever of the four forms, is read back as its text. */
  lemma IntegerTextRoundTrip(data: bytes, pos: nat, n: int)
    requires InI64(n) && At(data, pos, IntegerText(n))
    ensures pos <= |data| && ReadText(data, pos) == Got(ToDecimal(n), pos + |IntegerText(n)|)
  {
    hide Le, LeValue, Pow256, ToDecimal, Signed, Truncate, At, ReadSigned, Length, InBytes;
    if InBytes(n, 1) {
      SmallInteger(data, pos, 0xC0, 1, n);
    } else if InBytes(n, 2) {
      SmallInteger(data, pos, 0xC1, 2, n);
    } else if InBytes(n, 4) {
      SmallInteger(data, pos, 0xC2, 4, n);
    } else {
      DecimalLength(n);
      PlainText(data, pos, ToDecimal(n));
    }
  }

  /** Every byte string is read back unchanged, in whichever form it was written. */
  lemma TextRoundTrip(data: bytes, pos: nat, s: bytes)
    requires |s| < 0x1_0000_0000_0000_0000 && At(data, pos, Text(s))
    ensures pos <= |data| && ReadText(data, pos) == Got(s, pos + |Text(s)|)
  {
    hide ToDecimal, ReadText, Length, IntegerText, At;
    var n := CanonicalInteger(s);
    if |s| <= 11 && n.Some? {
      IntegerTextRoundTrip(data, pos, n.value);
    } else {
      PlainText(data, pos, s);
    }
  }
}
