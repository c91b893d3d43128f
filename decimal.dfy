/** Decimal text of integers, as Rust's `Display` prints them and as
    `FromStr` for i32, u16 and u32 parses them. The repository relies on
    both when it writes and reads "<numerator>/<denominator>" amounts. */
module Decimal {
  import opened Basics

  /** The kinds of Rust's `ParseIntError`. */
  datatype IntErrorKind = Empty | InvalidDigit | PosOverflow | NegOverflow

  const I32_MIN: int := -0x8000_0000
  const I32_MAX: int := 0x7FFF_FFFF
  const U16_MAX: int := 0xFFFF
  const U32_MAX: int := 0xFFFF_FFFF

  predicate InI32(x: int) { I32_MIN <= x <= I32_MAX }

  predicate IsDigit(c: char) { '0' <= c <= '9' }

  function DigitValue(c: char): (d: nat)
    requires IsDigit(c)
    ensures d < 10
  {
    (c as int) - ('0' as int)
  }

  function DigitChar(d: nat): (c: char)
    requires d < 10
    ensures IsDigit(c) && DigitValue(c) == d
  {
    (('0' as int) + d) as char
  }

  /** The decimal digits of `n`, most significant first, without leading zeros. */
  function NatToString(n: nat): (s: string)
    ensures |s| > 0 && forall k | 0 <= k < |s| :: IsDigit(s[k])
    ensures n > 0 ==> s[0] != '0'
    decreases n
  {
    if n < 10 then [DigitChar(n)] else NatToString(n / 10) + [DigitChar(n % 10)]
  }

  /** Rust's `Display` for a signed integer: a '-' for negative values, then the digits. */
  function IntToString(i: int): (s: string)
    ensures |s| > 0
    ensures (s[0] == '-') <==> i < 0
    ensures forall k | 0 <= k < |s| :: IsDigit(s[k]) || (k == 0 && s[k] == '-')
  {
    if i < 0 then "-" + NatToString(-i) else NatToString(i)
  }

  /** The digit loop of Rust's `from_str_radix` in base 10: digits are
      consumed left to right (the prefix is evaluated first, so the leftmost
      problem is the one reported), a non-digit is `InvalidDigit`, and a
      partial value leaving [lo, hi] is an overflow in the direction of the sign. */
  function Accumulate(digits: string, negative: bool, lo: int, hi: int): (r: Result<int, IntErrorKind>)
    requires lo <= 0 <= hi
    ensures r.Ok? ==> lo <= r.value <= hi
    ensures r.Ok? ==> forall k | 0 <= k < |digits| :: IsDigit(digits[k])
    ensures r.Ok? && negative ==> r.value <= 0
    ensures r.Ok? && !negative ==> r.value >= 0
    decreases |digits|
  {
    if digits == [] then Ok(0)
    else
      match Accumulate(digits[..|digits| - 1], negative, lo, hi)
      case Err(e) => Err(e)
      case Ok(v) =>
        var c := digits[|digits| - 1];
        if !IsDigit(c) then Err(InvalidDigit)
        else if negative then
          (var w := v * 10 - DigitValue(c); if w < lo then Err(NegOverflow) else Ok(w))
        else
          (var w := v * 10 + DigitValue(c); if w > hi then Err(PosOverflow) else Ok(w))
  }

  /** Rust's `FromStr` for an integer type whose range is [lo, hi]: the empty
      string is `Empty`; a lone sign is `InvalidDigit`; '+' is skipped; '-' is
      a sign only for signed types (for unsigned ones it is an invalid digit). */
  function ParseInt(s: string, signed: bool, lo: int, hi: int): (r: Result<int, IntErrorKind>)
    requires lo <= 0 <= hi
    ensures r.Ok? ==> lo <= r.value <= hi
    ensures s == [] ==> r == Err(Empty)
  {
    if s == [] then Err(Empty)
    else if (s[0] == '+' || s[0] == '-') && |s| == 1 then Err(InvalidDigit)
    else if s[0] == '+' then Accumulate(s[1..], false, lo, hi)
    else if s[0] == '-' && signed then Accumulate(s[1..], true, lo, hi)
    else Accumulate(s, false, lo, hi)
  }

  function ParseI32(s: string): (r: Result<int, IntErrorKind>)
    ensures r.Ok? ==> InI32(r.value)
  {
    ParseInt(s, true, I32_MIN, I32_MAX)
  }

  function ParseU16(s: string): (r: Result<U16, IntErrorKind>)
    ensures s == [] ==> r == Err(Empty)
    ensures r.Ok? ==> (IsDigit(s[0]) || s[0] == '+') && forall k | 1 <= k < |s| :: IsDigit(s[k])
  {
    match ParseInt(s, false, 0, U16_MAX)
    case Ok(v) => Ok(v)
    case Err(e) => Err(e)
  }

  function ParseU32(s: string): (r: Result<nat, IntErrorKind>)
    ensures r.Ok? ==> r.value <= U32_MAX
  {
    match ParseInt(s, false, 0, U32_MAX)
    case Ok(v) => Ok(v)
    case Err(e) => Err(e)
  }

  /** The leftmost non-digit decides the error when nothing before it overflows. */
  lemma {:induction false} AccumulateLeadingNonDigit(digits: string, negative: bool, lo: int, hi: int)
    requires lo <= 0 <= hi
    requires |digits| > 0 && !IsDigit(digits[0])
    ensures Accumulate(digits, negative, lo, hi) == Err(InvalidDigit)
    decreases |digits|
  {
    if |digits| > 1 {
      AccumulateLeadingNonDigit(digits[..|digits| - 1], negative, lo, hi);
    }
  }

  /** An unsigned type rejects a leading '-' as an invalid digit. */
  lemma UnsignedRejectsMinus(s: string, hi: int)
    requires 0 <= hi && |s| > 0 && s[0] == '-'
    ensures ParseInt(s, false, 0, hi) == Err(InvalidDigit)
  {
    if |s| > 1 {
      AccumulateLeadingNonDigit(s, false, 0, hi);
    }
  }

  /** The digit loop reads back the digits that `NatToString` prints. */
  lemma {:induction false} AccumulateNatToString(n: nat, negative: bool, lo: int, hi: int)
    requires lo <= 0 <= hi
    requires if negative then lo + n <= 0 else n <= hi
    ensures Accumulate(NatToString(n), negative, lo, hi) == Ok(if negative then -(n as int) else n)
    decreases n
  {
    var s := NatToString(n);
    if n < 10 {
      assert s[..|s| - 1] == [];
    } else {
      AccumulateNatToString(n / 10, negative, lo, hi);
      assert s[..|s| - 1] == NatToString(n / 10);
    }
  }

  /** Printing an i32 and parsing the text gives the number back. */
  lemma I32RoundTrip(i: int)
    requires InI32(i)
    ensures ParseI32(IntToString(i)) == Ok(i)
  {
    var s := IntToString(i);
    if i < 0 {
      assert s[1..] == NatToString(-i);
      AccumulateNatToString(-i, true, I32_MIN, I32_MAX);
    } else {
      AccumulateNatToString(i, false, I32_MIN, I32_MAX);
    }
  }

  /** Printing a u16 and parsing the text gives the number back. */
  lemma U16RoundTrip(n: U16)
    ensures ParseU16(NatToString(n)) == Ok(n)
  {
    AccumulateNatToString(n, false, 0, U16_MAX);
  }
}
