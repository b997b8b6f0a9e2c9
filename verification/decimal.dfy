/** `BigDecimal` division at scale 2 with `RoundingMode.HALF_UP`. Amounts are exact rationals,
    so rounding happens only where the source asks for it. */
module Decimal {

  /** `x` is a whole number of hundredths (a value BigDecimal can hold at scale 2). */
  predicate IsCents(x: real) {
    (x * 100.0).Floor as real == x * 100.0
  }

  /** The number of hundredths nearest to `x`, ties away from zero. */
  function Cents(x: real): int {
    if x >= 0.0 then (x * 100.0 + 0.5).Floor else -(((-x) * 100.0 + 0.5).Floor)
  }

  /** HALF_UP at two decimals. */
  function RoundHalfUp2(x: real): real {
    Cents(x) as real / 100.0
  }

  /** What HALF_UP at two decimals means: a whole number of hundredths, the nearest one to `x`,
      and on a tie the one farther from zero. */
  lemma RoundHalfUp2Window(x: real)
    ensures IsCents(RoundHalfUp2(x))
    ensures var r := RoundHalfUp2(x);
            x >= 0.0 ==> r >= 0.0 && r * 100.0 - 0.5 <= x * 100.0 < r * 100.0 + 0.5
    ensures var r := RoundHalfUp2(x);
            x < 0.0 ==> r <= 0.0 && r * 100.0 - 0.5 < x * 100.0 <= r * 100.0 + 0.5
  {
    var c := Cents(x);
    assert (c as real / 100.0) * 100.0 == c as real;
  }

  /** The contract above pins the result down: any whole number of hundredths in the
      HALF_UP window of `x` is the rounded value. */
  lemma RoundHalfUp2Unique(x: real, r: real)
    requires IsCents(r)
    requires x >= 0.0 ==> r * 100.0 - 0.5 <= x * 100.0 < r * 100.0 + 0.5
    requires x < 0.0 ==> r * 100.0 - 0.5 < x * 100.0 <= r * 100.0 + 0.5
    ensures r == RoundHalfUp2(x)
  {
    RoundHalfUp2Window(x);
    var q := RoundHalfUp2(x);
    var a := (r * 100.0).Floor;
    var b := (q * 100.0).Floor;
    assert a as real == r * 100.0;
    assert b as real == q * 100.0;
    assert -1 < a - b < 1;
    assert a == b;
  }

  /** The rounding error is at most half a cent. */
  lemma RoundHalfUp2Error(x: real)
    ensures -0.005 <= RoundHalfUp2(x) - x <= 0.005
  {
    RoundHalfUp2Window(x);
  }

  /** An amount that already has at most two decimals is returned unchanged. */
  lemma RoundHalfUp2Exact(x: real)
    requires IsCents(x)
    ensures RoundHalfUp2(x) == x
  {
    RoundHalfUp2Unique(x, x);
  }

  /** HALF_UP is symmetric about zero. */
  lemma RoundHalfUp2Odd(x: real)
    ensures RoundHalfUp2(-x) == -RoundHalfUp2(x)
  {
    RoundHalfUp2Window(x);
    var r := -RoundHalfUp2(x);
    assert (r * 100.0).Floor == -((RoundHalfUp2(x) * 100.0).Floor);
    RoundHalfUp2Unique(-x, r);
  }
}
