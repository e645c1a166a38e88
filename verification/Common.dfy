/** Types shared by every part of the model: optional and failing results, machine words. */
module Common {

  datatype Option<+T> = None | Some(value: T)

  datatype Result<+T, +E> = Ok(value: T) | Err(error: E)

  newtype byte = x: int | 0 <= x < 256
  newtype u64 = x: int | 0 <= x < 0x1_0000_0000_0000_0000

  type bytes = seq<byte>

  const CR: byte := 13
  const LF: byte := 10
  const CRLF: bytes := [CR, LF]
  const MINUS: byte := 45
  const PLUS: byte := 43

  const I64_MIN := -0x8000_0000_0000_0000
  const I64_MAX := 0x7fff_ffff_ffff_ffff

  predicate InI64(n: int) { I64_MIN <= n <= I64_MAX }

  /** Milliseconds in a u64. */
  type Time = x: int | 0 <= x < 0x1_0000_0000_0000_0000

  /** The cast of a u64 to an i64. */
  function ToI64(n: Time): (r: int)
    ensures InI64(r) && (n <= I64_MAX ==> r == n) && (n > I64_MAX ==> r < 0)
  {
    if n <= I64_MAX then n else n - 0x1_0000_0000_0000_0000
  }

  /** Addition and multiplication of u64 values wrap around. */
  function Wrap64(n: int): (r: Time)
    ensures 0 <= n < 0x1_0000_0000_0000_0000 ==> r == n
  {
    n % 0x1_0000_0000_0000_0000
  }

  /** The index of the first `b` at or after `i`, or the length. */
  function IndexOf(s: bytes, b: byte, i: nat := 0): (r: nat)
    requires i <= |s|
    ensures i <= r <= |s|
    ensures r < |s| ==> s[r] == b
    ensures forall j :: i <= j < r ==> s[j] != b
    decreases |s| - i
  {
    if i == |s| || s[i] == b then i else IndexOf(s, b, i + 1)
  }
}
