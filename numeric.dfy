// Decimal arithmetic the services rely on: C# `decimal` is modelled as an exact
// `real`, and `Math.Round(x, d)` (banker's rounding) and `Math.Ceiling` are
// written out.

module Numeric {

  function Abs(x: real): (r: real)
    ensures r >= 0.0
    ensures r == x || r == -x
  {
    if x < 0.0 then -x else x
  }

  /** The integer nearest to `y`; a tie goes to the even neighbour
    * (`MidpointRounding.ToEven`, the default of `Math.Round`). */
  function RoundToEven(y: real): (n: int)
    ensures -0.5 <= n as real - y <= 0.5
    ensures Abs(n as real - y) == 0.5 ==> n % 2 == 0
  {
    var f := y.Floor;
    var frac := y - f as real;
    if frac > 0.5 then f + 1
    else if frac < 0.5 then f
    else if f % 2 == 0 then f
    else f + 1
  }

  /** No integer is nearer to `y` than RoundToEven(y). */
  lemma RoundToEvenIsNearest(y: real, m: int)
    ensures Abs(RoundToEven(y) as real - y) <= Abs(m as real - y)
  {
    var f := y.Floor;
    assert f as real <= y < f as real + 1.0;
    if m <= f - 1 {
      assert Abs(m as real - y) >= 1.0;
    } else if m >= f + 2 {
      assert Abs(m as real - y) >= 1.0;
    }
  }

  /** An integer rounds to itself. */
  lemma RoundToEvenOfInteger(n: int)
    ensures RoundToEven(n as real) == n
  {
    assert (n as real).Floor == n;
  }

  lemma DivMul(a: real, p: real)
    requires p != 0.0
    ensures (a / p) * p == a
  {
  }

  /** Rounding commutes with negation: ties to even treat both signs alike. */
  lemma RoundToEvenNegate(y: real)
    ensures RoundToEven(-y) == -RoundToEven(y)
  {
    var f := y.Floor;
    if y == f as real {
      assert (-y).Floor == -f;
    } else {
      assert (-y).Floor == -f - 1;
      if y - f as real == 0.5 {
        assert (-f - 1) % 2 == 0 <==> f % 2 != 0;
      }
    }
  }

  lemma RoundNegate(x: real, scale: real)
    requires scale > 0.0
    ensures Round(-x, scale) == -Round(x, scale)
  {
    assert -x * scale == -(x * scale);
    RoundToEvenNegate(x * scale);
  }

  /** `Math.Round(x, d)` with `scale` = 10^d: `x` rounded to a whole number of
    * units of size 1/scale, a tie going to an even number of units. */
  function Round(x: real, scale: real): real
    requires scale > 0.0
  {
    RoundToEven(x * scale) as real / scale
  }

  /** One decimal place and two decimal places, the precisions the journal uses. */
  const OneDecimal: real := 10.0
  const TwoDecimals: real := 100.0

  lemma MulDiv(a: real, p: real)
    requires p != 0.0
    ensures (a * p) / p == a
  {
  }

  /** The rounded value is the whole number of units nearest to `x`
    * (see RoundToEven), expressed back in units of 1. */
  lemma RoundIsNearest(x: real, scale: real)
    requires scale > 0.0
    ensures Round(x, scale) * scale == RoundToEven(x * scale) as real
    ensures -0.5 <= Round(x, scale) * scale - x * scale <= 0.5
  {
    DivMul(RoundToEven(x * scale) as real, scale);
  }

  /** A value that is already a whole number `n` of units is left as it is. */
  lemma RoundExact(x: real, scale: real, n: int)
    requires scale > 0.0
    requires x * scale == n as real
    ensures Round(x, scale) == x
  {
    RoundToEvenOfInteger(n);
    MulDiv(x, scale);
  }

  /** Rounding twice to the same precision is rounding once. */
  lemma RoundIdempotent(x: real, scale: real)
    requires scale > 0.0
    ensures Round(Round(x, scale), scale) == Round(x, scale)
  {
    RoundIsNearest(x, scale);
    RoundExact(Round(x, scale), scale, RoundToEven(x * scale));
  }

  /** `Math.Ceiling`: the least integer not below `x`. */
  function Ceiling(x: real): (c: int)
    ensures c as real >= x
    ensures (c - 1) as real < x
  {
    -((-x).Floor)
  }
}
