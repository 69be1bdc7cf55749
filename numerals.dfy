/**
  Decimal integers as the node reads and writes them: int.TryParse / long.TryParse
  (an optional sign followed by ASCII digits, within the 32- or 64-bit range),
  the decimal rendering used by string interpolation, and C#'s truncating `/`.
*/
module Numerals {
  import opened Wrappers

  const Int32Min: int := -0x8000_0000
  const Int32Max: int := 0x7FFF_FFFF
  const Int64Min: int := -0x8000_0000_0000_0000
  const Int64Max: int := 0x7FFF_FFFF_FFFF_FFFF

  predicate IsDigit(c: char)
  {
    '0' <= c <= '9'
  }

  predicate AllDigits(s: string)
  {
    forall i | 0 <= i < |s| :: IsDigit(s[i])
  }

  function DigitChar(d: nat): (c: char)
    requires d < 10
    ensures IsDigit(c) && c as int - '0' as int == d
  {
    ('0' as int + d) as char
  }

  /** The value of a string of decimal digits, most significant first. */
  function DigitsValue(s: string): nat
    requires AllDigits(s)
  {
    if |s| == 0 then 0
    else DigitsValue(s[..|s| - 1]) * 10 + (s[|s| - 1] as int - '0' as int)
  }

  /** The decimal digits of a natural number, without leading zeros. */
  function NatToString(n: nat): (s: string)
    ensures |s| >= 1 && AllDigits(s)
  {
    if n < 10 then [DigitChar(n)] else NatToString(n / 10) + [DigitChar(n % 10)]
  }

  /** Decimal rendering of an integer, as `$"{n}"` formats an int or a long. */
  function IntToString(n: int): (s: string)
    ensures |s| >= 1
    ensures forall i | 0 <= i < |s| :: IsDigit(s[i]) || s[i] == '-'
  {
    if n < 0 then "-" + NatToString(-n) else NatToString(n)
  }

  /** An optional leading sign followed by one or more decimal digits. */
  function ParseInteger(s: string): (r: Option<int>)
    ensures r.Some? ==> |s| >= 1
  {
    if |s| >= 2 && (s[0] == '-' || s[0] == '+') && AllDigits(s[1..]) then
      var magnitude: int := DigitsValue(s[1..]);
      Some(if s[0] == '-' then -magnitude else magnitude)
    else if |s| >= 1 && AllDigits(s) then
      Some(DigitsValue(s))
    else
      None
  }

  /** A parsed integer begins with its sign or with a digit. */
  lemma ParsedLead(s: string)
    requires ParseInteger(s).Some?
    ensures s[0] == '-' || s[0] == '+' || IsDigit(s[0])
  {
  }

  /** int.TryParse: succeeds on a decimal integer that fits in 32 bits. */
  function ParseInt32(s: string): (r: Option<int>)
    ensures r.Some? ==> Int32Min <= r.value <= Int32Max && ParseInteger(s) == r
    ensures r.None? ==> ParseInteger(s).None? || !(Int32Min <= ParseInteger(s).value <= Int32Max)
  {
    match ParseInteger(s)
    case Some(v) => if Int32Min <= v <= Int32Max then Some(v) else None
    case None => None
  }

  /** long.TryParse (and long.Parse without its exception): 64-bit decimal integers. */
  function ParseInt64(s: string): (r: Option<int>)
    ensures r.Some? ==> Int64Min <= r.value <= Int64Max && ParseInteger(s) == r
    ensures r.None? ==> ParseInteger(s).None? || !(Int64Min <= ParseInteger(s).value <= Int64Max)
  {
    match ParseInteger(s)
    case Some(v) => if Int64Min <= v <= Int64Max then Some(v) else None
    case None => None
  }

  lemma {:induction false} DigitsOfNat(n: nat)
    ensures DigitsValue(NatToString(n)) == n
  {
    if n >= 10 {
      var s := NatToString(n);
      DigitsOfNat(n / 10);
      assert s[..|s| - 1] == NatToString(n / 10);
    }
  }

  /** Reading back what the node writes gives the same number. */
  lemma ParseIntegerRoundTrip(n: int)
    ensures ParseInteger(IntToString(n)) == Some(n)
  {
    if n < 0 {
      DigitsOfNat(-n);
      assert IntToString(n)[1..] == NatToString(-n);
    } else {
      DigitsOfNat(n);
    }
  }

  lemma ParseInt32RoundTrip(n: int)
    requires Int32Min <= n <= Int32Max
    ensures ParseInt32(IntToString(n)) == Some(n)
  {
    ParseIntegerRoundTrip(n);
  }

  lemma ParseInt64RoundTrip(n: int)
    requires Int64Min <= n <= Int64Max
    ensures ParseInt64(IntToString(n)) == Some(n)
  {
    ParseIntegerRoundTrip(n);
  }

  /** C#'s integer division rounds toward zero (Dafny's `/` is Euclidean). */
  function TruncDiv(a: int, b: int): (q: int)
    requires b != 0
    ensures a >= 0 && b > 0 ==> q == a / b
    ensures a < 0 && b > 0 ==> q == -((-a) / b)
  {
    if (a >= 0) == (b > 0) then
      (if a >= 0 then a else -a) / (if b > 0 then b else -b)
    else
      -((if a >= 0 then a else -a) / (if b > 0 then b else -b))
  }
}
