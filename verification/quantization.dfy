/**
 * Decimal truncation as the exchange client performs it: a quantity or a
 * price is quantized to the exponent of the step (or tick) string with
 * rounding toward zero.  A step string such as "0.010" is the decimal
 * coefficient 10 with exponent -3; quantizing keeps three decimals, so the
 * result is a multiple of the step itself only when the coefficient is 1.
 */
module Quantization {

  type Pos = n: nat | n > 0 witness 1

  /** A step or tick size as the decimal the exchange sends: coefficient × 10^exponent. */
  datatype Step = Step(coefficient: Pos, exponent: int)

  function Pow10(e: int): (p: real)
    ensures p > 0.0
    decreases if e < 0 then -e else e
  {
    if e == 0 then 1.0
    else if e > 0 then 10.0 * Pow10(e - 1)
    else Pow10(e + 1) / 10.0
  }

  /** The unit of the last decimal place the step keeps. */
  function Unit(s: Step): (u: real)
    ensures u > 0.0
  {
    Pow10(s.exponent)
  }

  /** The numeric value of the step, as the source obtains it with float(step). */
  function Value(s: Step): (v: real)
    ensures v >= Unit(s)
  {
    ScaleAtLeast(s.coefficient as real, Unit(s));
    s.coefficient as real * Unit(s)
  }

  /** Integer part of q, rounding toward zero. */
  function Trunc(q: real): (k: int)
    ensures q >= 0.0 ==> 0 <= k && k as real <= q < k as real + 1.0
    ensures q < 0.0 ==> k <= 0 && k as real - 1.0 < q <= k as real
  {
    if q >= 0.0 then q.Floor else -((-q).Floor)
  }

  /** Decimal(x).quantize(step, rounding=ROUND_DOWN). */
  function Quantize(x: real, s: Step): real
  {
    Trunc(x / Unit(s)) as real * Unit(s)
  }

  /** x is a whole number of units u. */
  predicate IsMultipleOf(x: real, u: real)
    requires u > 0.0
  {
    (x / u).Floor as real == x / u
  }

  // Small facts of real arithmetic, kept apart so that each proof stays linear.

  lemma ScaleAtLeast(c: real, u: real)
    requires c >= 1.0 && u > 0.0
    ensures c * u >= u
  {
  }

  lemma DivMulCancel(x: real, u: real)
    requires u > 0.0
    ensures x / u * u == x && (x * u) / u == x
  {
  }

  lemma DivSign(x: real, u: real)
    requires u > 0.0
    ensures x >= 0.0 ==> x / u >= 0.0
    ensures x < 0.0 ==> x / u < 0.0
  {
  }

  lemma MulLe(a: real, b: real, u: real)
    requires a <= b && u > 0.0
    ensures a * u <= b * u
  {
  }

  lemma MulLt(a: real, b: real, u: real)
    requires a < b && u > 0.0
    ensures a * u < b * u
  {
  }

  // The solver handles the steps below only when the products are passed in
  // as plain values, so the linear part of the argument is a lemma of its own.
  lemma LinearSandwich(x: real, ku: real, u: real, belowU: real, aboveU: real)
    requires belowU >= 0.0 && belowU == x - ku
    requires aboveU > 0.0 && aboveU == ku + u - x
    ensures ku <= x && x - ku < u
  {
  }

  lemma ScaleBetween(x: real, q: real, k: real, u: real)
    requires u > 0.0 && q * u == x && k <= q < k + 1.0
    ensures k * u <= x && x - k * u < u
  {
    var below := q - k;
    var above := k + 1.0 - q;
    assert below * u >= 0.0;
    assert below * u == q * u - k * u;
    assert above * u > 0.0;
    assert above * u == k * u + u - q * u;
    LinearSandwich(x, k * u, u, below * u, above * u);
  }

  /** Truncation never moves a non-negative value up and loses less than one unit. */
  lemma QuantizeBounds(x: real, s: Step)
    ensures x >= 0.0 ==> 0.0 <= Quantize(x, s) <= x && x - Quantize(x, s) < Unit(s)
    ensures x < 0.0 ==> x <= Quantize(x, s) <= 0.0 && Quantize(x, s) - x < Unit(s)
  {
    var u := Unit(s);
    var k := Trunc(x / u) as real;
    assert Quantize(x, s) == k * u;
    DivMulCancel(x, u);
    DivSign(x, u);
    if x >= 0.0 {
      MulLe(0.0, k, u);
      ScaleBetween(x, x / u, k, u);
    } else {
      MulLe(k, 0.0, u);
      assert (-(x / u)) * u == -x && (-k) * u == -(k * u);
      ScaleBetween(-x, -(x / u), -k, u);
    }
  }

  /**
   * The result is always less than one unit away from the input.  This is
   * the sign-free half of QuantizeBounds, for callers that do not split on
   * the sign of the input.
   */
  lemma QuantizeClose(x: real, s: Step)
    ensures x - Unit(s) < Quantize(x, s) < x + Unit(s)
  {
    QuantizeBounds(x, s);
  }

  /** The result keeps exactly the decimals of the step: it is a whole number of units. */
  lemma QuantizeIsMultiple(x: real, s: Step)
    ensures IsMultipleOf(Quantize(x, s), Unit(s))
  {
    var u := Unit(s);
    var k := Trunc(x / u);
    DivMulCancel(k as real, u);
    assert Quantize(x, s) / u == k as real;
    assert (k as real).Floor == k;
  }

  /** With a power-of-ten step ("0.01", "1e-8") the result is a multiple of the step's value. */
  lemma QuantizePowerOfTenStep(x: real, s: Step)
    requires s.coefficient == 1
    ensures IsMultipleOf(Quantize(x, s), Value(s))
  {
    QuantizeIsMultiple(x, s);
  }

  /** Quantizing twice is quantizing once. */
  lemma QuantizeIdempotent(x: real, s: Step)
    ensures Quantize(Quantize(x, s), s) == Quantize(x, s)
  {
    var u := Unit(s);
    var k := Trunc(x / u);
    DivMulCancel(k as real, u);
    assert Quantize(x, s) / u == k as real;
    assert Trunc(k as real) == k;
  }

  /** Truncation is monotone. */
  lemma QuantizeMonotone(x: real, y: real, s: Step)
    requires x <= y
    ensures Quantize(x, s) <= Quantize(y, s)
  {
    var u := Unit(s);
    assert y / u - x / u == (y - x) / u;
    assert Trunc(x / u) <= Trunc(y / u);
    MulLe(Trunc(x / u) as real, Trunc(y / u) as real, u);
  }
}
