/** Values as the store keeps them: text that is a canonical integer is kept as a number. */
module PrimeValues {
  import opened Common
  import opened Decimal

  /** `Collection` stands for the list, set, hash and sorted set values. */
  datatype PrimeValue = String(data: bytes) | Integer(n: int) | Collection(kind: nat, items: seq<bytes>)

  function FromBytes(data: bytes): PrimeValue {
    var n := ParseTrimmed(data);
    if n.Some? && ToDecimal(n.value) == data then Integer(n.value) else String(data)
  }

  function AsBytes(v: PrimeValue): bytes {
    match v
    case String(s) => s
    case Integer(n) => ToDecimal(n)
    case Collection(_, _) => []
  }

  function AsInteger(v: PrimeValue): Option<int> {
    match v
    case Integer(n) => Some(n)
    case String(s) => ParseTrimmed(s)
    case Collection(_, _) => None
  }

  predicate IsString(v: PrimeValue) { !v.Collection? }

  /** Storing bytes and reading them back gives the same bytes, whichever form is chosen. */
  lemma BytesRoundTrip(data: bytes)
    ensures IsString(FromBytes(data)) && AsBytes(FromBytes(data)) == data
    ensures FromBytes(data).Integer? ==> InI64(FromBytes(data).n)
  {
    hide TrimStart, TrimEnd, ToDecimal;
  }

  /** A value counts as the number that its bytes spell, however it is kept. */
  lemma IntegerOfBytes(v: PrimeValue)
    requires v.Integer? ==> InI64(v.n)
    ensures AsInteger(v) == if IsString(v) then ParseTrimmed(AsBytes(v)) else None
  {
    hide ParseTrimmed, ToDecimal;
    if v.Integer? {
      DecimalRoundTrip(v.n);
    }
  }

  /** An integer is recognised from its own text. */
  lemma IntegerRoundTrip(n: int)
    requires InI64(n)
    ensures FromBytes(ToDecimal(n)) == Integer(n)
  {
    hide ParseTrimmed, ToDecimal;
    DecimalRoundTrip(n);
  }
}
