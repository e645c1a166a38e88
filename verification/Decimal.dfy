/** Decimal integers as text: what `to_string`, `trim` and `parse::<i64>` do to bytes. */
module Decimal {
  import opened Common

  predicate IsDigit(b: byte) { 48 <= b <= 57 }

  function Digits(n: nat): (s: bytes)
    ensures s != [] && forall i :: 0 <= i < |s| ==> IsDigit(s[i])
  {
    if n < 10 then [(48 + n) as byte] else Digits(n / 10) + [(48 + n % 10) as byte]
  }

  /** `n.to_string()` */
  function ToDecimal(n: int): (s: bytes)
    ensures s != []
  {
    if n < 0 then [MINUS] + Digits(-n) else Digits(n)
  }

  /** The value of a run of digits; None if some byte is not a digit. */
  function DigitsValue(s: bytes): Option<nat> {
    if s == [] then Some(0)
    else
      var last := s[|s| - 1];
      var rest := DigitsValue(s[..|s| - 1]);
      if rest.None? || !IsDigit(last) then None else Some(rest.value * 10 + (last - 48) as nat)
  }

  /** `s.parse::<i64>()`: an optional sign, at least one digit, nothing else, and the value must fit. */
  function ParseI64(s: bytes): (r: Option<int>)
    ensures r.Some? ==> InI64(r.value)
  {
    if s == [] then None
    else
      var signed := s[0] == MINUS || s[0] == PLUS;
      var digits := if signed then s[1..] else s;
      var v := DigitsValue(digits);
      if digits == [] || v.None? then None
      else
        var n: int := if s[0] == MINUS then -(v.value as int) else v.value;
        if InI64(n) then Some(n) else None
  }

  /** Length of the white space character (in UTF-8) that `s` starts with, or 0. */
  function SpaceAt(s: bytes): (n: nat)
    ensures n <= |s|
  {
    if |s| >= 1 && (9 <= s[0] <= 13 || s[0] == 32) then 1
    else if |s| >= 2 && s[0] == 0xC2 && (s[1] == 0x85 || s[1] == 0xA0) then 2
    else if |s| >= 3 && IsWideSpace(s[0], s[1], s[2]) then 3
    else 0
  }

  predicate IsWideSpace(a: byte, b: byte, c: byte) {
    || (a == 0xE1 && b == 0x9A && c == 0x80)
    || (a == 0xE2 && b == 0x80 && (0x80 <= c <= 0x8A || c == 0xA8 || c == 0xA9 || c == 0xAF))
    || (a == 0xE2 && b == 0x81 && c == 0x9F)
    || (a == 0xE3 && b == 0x80 && c == 0x80)
  }

  /** Length of the white space character that `s` ends with, or 0. */
  function SpaceBefore(s: bytes): (n: nat)
    ensures n <= |s|
  {
    if |s| >= 1 && SpaceAt(s[|s| - 1..]) == 1 then 1
    else if |s| >= 2 && SpaceAt(s[|s| - 2..]) == 2 then 2
    else if |s| >= 3 && SpaceAt(s[|s| - 3..]) == 3 then 3
    else 0
  }

  function TrimStart(s: bytes): bytes {
    if SpaceAt(s) > 0 then TrimStart(s[SpaceAt(s)..]) else s
  }

  function TrimEnd(s: bytes): bytes {
    if SpaceBefore(s) > 0 then TrimEnd(s[..|s| - SpaceBefore(s)]) else s
  }

  /**
   `from_utf8(s).ok()?.trim().parse::<i64>().ok()`. Text that is not UTF-8 cannot be white space
   around an ASCII number, so it gives None here as well.
   */
  function ParseTrimmed(s: bytes): Option<int> { ParseI64(TrimEnd(TrimStart(s))) }

  lemma {:induction false} DigitsRoundTrip(n: nat)
    ensures DigitsValue(Digits(n)) == Some(n)
  {
    var s := Digits(n);
    if n >= 10 {
      DigitsRoundTrip(n / 10);
      assert s[..|s| - 1] == Digits(n / 10);
      assert s[|s| - 1] == (48 + n % 10) as byte;
    } else {
      assert s[..0] == [];
    }
  }

  function Pow10(n: nat): nat { if n == 0 then 1 else 10 * Pow10(n - 1) }

  /** The place-value reading: the first of `n` digits counts 10 to the power n - 1. */
  function Weighted(s: bytes): int {
    if s == [] then 0 else (s[0] as int - 48) * Pow10(|s| - 1) + Weighted(s[1..])
  }

  lemma {:induction false} WeightedMore(s: bytes, d: byte)
    ensures Weighted(s + [d]) == 10 * Weighted(s) + d as int - 48
    decreases |s|
  {
    if s == [] {
      assert s + [d] == [d] && [d][1..] == [];
    } else {
      assert (s + [d])[1..] == s[1..] + [d];
      WeightedMore(s[1..], d);
      TenTimes(s[0] as int - 48, Pow10(|s| - 1));
    }
  }

  lemma TenTimes(a: int, p: int)
    ensures a * (10 * p) == 10 * (a * p)
  {}

  /** A number is printed in place values, without a leading zero. */
  lemma {:induction false} PlaceValues(n: nat)
    ensures Weighted(Digits(n)) == n && (n > 0 ==> Digits(n)[0] != 48)
  {
    hide Weighted;
    if n >= 10 {
      PlaceValues(n / 10);
      WeightedMore(Digits(n / 10), (48 + n % 10) as byte);
    } else {
      WeightedMore([], (48 + n) as byte);
      assert [] + [(48 + n) as byte] == Digits(n);
      assert Weighted([]) == 0 by { NoDigits(); }
    }
  }

  lemma NoDigits()
    ensures Weighted([]) == 0
  {}

  /** Digits are read in place values as well. */
  lemma {:induction false} ReadInPlaces(s: bytes)
    ensures (forall i :: 0 <= i < |s| ==> IsDigit(s[i])) ==> DigitsValue(s).Some? && DigitsValue(s).value == Weighted(s)
    ensures DigitsValue(s).Some? ==> forall i :: 0 <= i < |s| ==> IsDigit(s[i])
    decreases |s|
  {
    hide Weighted;
    if s == [] {
      NoDigits();
    } else {
      var front, last := s[..|s| - 1], s[|s| - 1];
      ReadInPlaces(front);
      WeightedMore(front, last);
      assert s == front + [last];
    }
  }

  /** Printing an i64 and parsing the text gives the number back. */
  lemma DecimalRoundTrip(n: int)
    requires InI64(n)
    ensures ParseI64(ToDecimal(n)) == Some(n)
    ensures ParseTrimmed(ToDecimal(n)) == Some(n)
  {
    hide Digits, DigitsValue, TrimStart, TrimEnd;
    var m := if n < 0 then -n else n;
    DigitsRoundTrip(m);
    var s := ToDecimal(n);
    if n < 0 {
      assert s[1..] == Digits(m);
    } else {
      assert IsDigit(s[0]);
    }
    DecimalBytes(n);
    NoSpace(s);
  }

  /** Text that starts and ends with ASCII that is not white space is left alone by trim. */
  lemma NoSpace(s: bytes)
    requires s != [] && forall i :: 0 <= i < |s| ==> IsDigit(s[i]) || s[i] == MINUS
    ensures TrimStart(s) == s && TrimEnd(s) == s
  {
    hide TrimStart, TrimEnd, SpaceAt, SpaceBefore, IsDigit;
    NoSpaceAt(s);
    TrimStartNone(s);
    NoSpaceBefore(s);
    TrimEndNone(s);
  }

  lemma TrimStartNone(s: bytes)
    requires SpaceAt(s) == 0
    ensures TrimStart(s) == s
  {
    hide SpaceAt;
  }

  lemma TrimEndNone(s: bytes)
    requires SpaceBefore(s) == 0
    ensures TrimEnd(s) == s
  {
    hide SpaceBefore;
  }

  lemma NoSpaceBefore(s: bytes)
    requires s != [] && forall i :: 0 <= i < |s| ==> IsDigit(s[i]) || s[i] == MINUS
    ensures SpaceBefore(s) == 0
  {
    hide SpaceAt, IsDigit;
    NoSpaceAt(s[|s| - 1..]);
    if |s| >= 2 {
      NoSpaceAt(s[|s| - 2..]);
    }
    if |s| >= 3 {
      NoSpaceAt(s[|s| - 3..]);
    }
  }

  lemma NoSpaceAt(s: bytes)
    requires s != [] && (IsDigit(s[0]) || s[0] == MINUS)
    ensures SpaceAt(s) == 0
  {}

  lemma DecimalBytes(n: int)
    ensures forall i :: 0 <= i < |ToDecimal(n)| ==> IsDigit(ToDecimal(n)[i]) || ToDecimal(n)[i] == MINUS
    ensures n >= 0 ==> forall i :: 0 <= i < |ToDecimal(n)| ==> IsDigit(ToDecimal(n)[i])
  {}
}
