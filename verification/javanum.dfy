/** Java's fixed-width integers and the conversions the services rely on:
    `int` arithmetic (Integer stock counts), `BigDecimal.longValue()` and `Long.toString`. */
module JavaNum {
  import opened Common

  const TWO_32: int := 0x1_0000_0000
  const TWO_64: int := 0x1_0000_0000_0000_0000

  type Int32 = x: int | -0x8000_0000 <= x < 0x8000_0000
  type Int64 = x: int | -0x8000_0000_0000_0000 <= x < 0x8000_0000_0000_0000

  /** Two's-complement narrowing to 32 bits: the value Java's `int` arithmetic yields. */
  function Wrap32(x: int): (r: Int32)
    ensures (r - x) % TWO_32 == 0
  {
    (x + 0x8000_0000) % TWO_32 - 0x8000_0000
  }

  /** Two's-complement narrowing to 64 bits. */
  function Wrap64(x: int): (r: Int64)
    ensures (r - x) % TWO_64 == 0
  {
    (x + 0x8000_0000_0000_0000) % TWO_64 - 0x8000_0000_0000_0000
  }

  /** Two 32-bit values congruent modulo 2^32 are equal. */
  lemma Int32Congruent(a: Int32, b: Int32)
    requires (a - b) % TWO_32 == 0
    ensures a == b
  {
  }

  /** Narrowing an intermediate result and then adding is narrowing the exact sum:
      a chain of `int` additions equals one addition narrowed once. */
  lemma Wrap32Add(x: int, y: int)
    ensures Wrap32(Wrap32(x) + y) == Wrap32(x + y)
  {
    var a := Wrap32(Wrap32(x) + y);
    var b := Wrap32(x + y);
    var k1 := (Wrap32(x) - x) / TWO_32;
    assert Wrap32(x) == x + k1 * TWO_32;
    var k2 := (a - (Wrap32(x) + y)) / TWO_32;
    assert a == Wrap32(x) + y + k2 * TWO_32;
    var k3 := (b - (x + y)) / TWO_32;
    assert b == x + y + k3 * TWO_32;
    assert a - b == (k1 + k2 - k3) * TWO_32;
    Int32Congruent(a, b);
  }

  /** A value already in `int` range is left alone. */
  lemma Wrap32Id(x: Int32)
    ensures Wrap32(x) == x
  {
    Int32Congruent(Wrap32(x), x);
  }

  /** The integer part of `x`, rounding toward zero. */
  function TruncateTowardZero(x: real): (r: int)
    ensures x >= 0.0 ==> 0 <= r && r as real <= x < r as real + 1.0
    ensures x < 0.0 ==> r <= 0 && r as real - 1.0 < x <= r as real
  {
    if x >= 0.0 then x.Floor else -((-x).Floor)
  }

  /** `BigDecimal.longValue()`: the fraction is discarded and only the low-order 64 bits are kept. */
  function LongValue(x: real): (r: Int64)
    ensures -0x8000_0000_0000_0000 as real <= x < 0x8000_0000_0000_0000 as real ==> r == TruncateTowardZero(x)
  {
    Wrap64(TruncateTowardZero(x))
  }

  predicate IsDigit(c: char) {
    '0' <= c <= '9'
  }

  function DigitChar(d: int): (c: char)
    requires 0 <= d < 10
    ensures IsDigit(c)
  {
    ('0' as int + d) as char
  }

  function DigitValue(c: char): int
    requires IsDigit(c)
  {
    c as int - '0' as int
  }

  /** Decimal digits of a non-negative number, most significant first, without leading zeros. */
  function NatToString(n: nat): (s: string)
    ensures |s| >= 1
    ensures forall i :: 0 <= i < |s| ==> IsDigit(s[i])
  {
    if n < 10 then [DigitChar(n)] else NatToString(n / 10) + [DigitChar(n % 10)]
  }

  /** `Long.toString(n)`, which is also what string concatenation writes for a Long. */
  function LongToString(n: int): string {
    if n < 0 then "-" + NatToString(-n) else NatToString(n)
  }

  /** The number a string of decimal digits denotes. */
  function DigitsValue(s: string): nat
    requires forall i :: 0 <= i < |s| ==> IsDigit(s[i])
  {
    if |s| == 0 then 0 else DigitsValue(s[..|s| - 1]) * 10 + DigitValue(s[|s| - 1])
  }

  predicate AllDigits(s: string) {
    |s| >= 1 && forall i :: 0 <= i < |s| ==> IsDigit(s[i])
  }

  /** `Long.parseLong` without the 64-bit range check: an optional minus sign and at least one digit. */
  function ParseLong(s: string): Option<int> {
    if |s| >= 1 && s[0] == '-' then
      if AllDigits(s[1..]) then Some(-(DigitsValue(s[1..]) as int)) else None
    else if AllDigits(s) then Some(DigitsValue(s))
    else None
  }

  lemma {:induction false} NatToStringRoundTrip(n: nat)
    ensures DigitsValue(NatToString(n)) == n
  {
    if n >= 10 {
      var s := NatToString(n);
      assert s[..|s| - 1] == NatToString(n / 10);
      NatToStringRoundTrip(n / 10);
    }
  }

  /** Parsing what `Long.toString` printed gives the number back. */
  lemma LongToStringRoundTrip(n: int)
    ensures ParseLong(LongToString(n)) == Some(n)
  {
    var s := LongToString(n);
    if n < 0 {
      assert s == "-" + NatToString(-n);
      assert s[1..] == NatToString(-n);
      assert AllDigits(s[1..]);
      NatToStringRoundTrip(-n);
      assert ParseLong(s) == Some(-(DigitsValue(s[1..]) as int));
    } else {
      assert s == NatToString(n);
      assert IsDigit(s[0]) && AllDigits(s);
      NatToStringRoundTrip(n);
      assert ParseLong(s) == Some(DigitsValue(s));
    }
  }

  /** Hence distinct numbers print differently. */
  lemma LongToStringInjective(m: int, n: int)
    requires LongToString(m) == LongToString(n)
    ensures m == n
  {
    LongToStringRoundTrip(m);
    LongToStringRoundTrip(n);
  }

  /** The shape of a printed Long: an optional leading minus, then only digits, at least one. */
  predicate SignedNumeral(s: string) {
    && |s| >= 1
    && (s[0] == '-' || IsDigit(s[0]))
    && (s[0] == '-' ==> |s| >= 2)
    && forall i :: 1 <= i < |s| ==> IsDigit(s[i])
  }

  lemma LongToStringIsNumeral(n: int)
    ensures SignedNumeral(LongToString(n))
  {
  }
}
