/** Exact decimal amounts as reals, and rounding to a unit with ties away from zero. */
module Rounding {

  /** ROUND_HALF_UP to a whole number. */
  function RoundHalfUp(x: real): int
  {
    if x >= 0.0 then (x + 0.5).Floor else -(-x + 0.5).Floor
  }

  /** The nearest multiple of the unit, ties away from zero. */
  function Quantize(x: real, unit: real): real
    requires unit > 0.0
  {
    RoundHalfUp(x / unit) as real * unit
  }

  function Abs(x: real): real
  {
    if x >= 0.0 then x else -x
  }

  /** The whole number nearest to `x`, and on a tie the one farther from zero. */
  predicate Nearest(x: real, k: int)
  {
    Abs(x - k as real) <= 0.5 && (Abs(x - k as real) == 0.5 ==> Abs(k as real) > Abs(x))
  }

  /** Rounding is characterised. */
  lemma RoundHalfUpIff(x: real, k: int)
    ensures RoundHalfUp(x) == k <==> Nearest(x, k)
  {
    var r := RoundHalfUp(x);
    if x >= 0.0 {
      assert r as real <= x + 0.5 < r as real + 1.0;
    } else {
      assert (-r) as real <= -x + 0.5 < (-r) as real + 1.0;
    }
    if r < k { assert r as real + 1.0 <= k as real; }
    if k < r { assert k as real + 1.0 <= r as real; }
  }

  lemma RoundError(x: real)
    ensures Abs(RoundHalfUp(x) as real - x) <= 0.5
  {
    RoundHalfUpIff(x, RoundHalfUp(x));
  }

  lemma RoundsTo(x: real, k: int)
    requires Abs(x - k as real) < 0.5
    ensures RoundHalfUp(x) == k
  {
    RoundHalfUpIff(x, k);
  }

  lemma RoundMonotone(x: real, y: real)
    requires x <= y
    ensures RoundHalfUp(x) <= RoundHalfUp(y)
  {
    var a, b := RoundHalfUp(x), RoundHalfUp(y);
    RoundHalfUpIff(x, a);
    RoundHalfUpIff(y, b);
    assert b < a ==> b as real + 1.0 <= a as real;
  }

  /** Rounding down loses strictly less than half when the value is not negative. */
  lemma RoundUpOnTies(x: real)
    requires x >= 0.0
    ensures x - RoundHalfUp(x) as real < 0.5 && RoundHalfUp(x) >= 0
  {
    RoundHalfUpIff(x, RoundHalfUp(x));
  }

  lemma DivideSum(a: real, b: real, c: real, d: real)
    requires d != 0.0 && a == b * d + c
    ensures a / d == b + c / d
  {
  }

  lemma DivideBounds(x: real, d: real)
    requires d > 0.0
    ensures Abs(x / d) == Abs(x) / d
  {
  }

  lemma QuotientTimes(x: real, d: real)
    requires d != 0.0
    ensures x / d * d == x
  {
  }

  lemma QuotientShrinks(x: real, d: real)
    requires x >= 0.0 && d >= 1.0
    ensures 0.0 <= x / d <= x
  {
    var q := x / d;
    QuotientTimes(x, d);
    if q < 0.0 { MonotoneProduct(q, 0.0, d); }
    NonNegativeProduct(q, d - 1.0);
  }

  lemma MultiplyBound(x: real, y: real, d: real)
    requires d >= 0.0 && Abs(x) <= y
    ensures Abs(x * d) <= y * d
  {
  }

  lemma QuantizeInUnits(x: real, unit: real, c: real)
    requires unit > 0.0 && x == c * unit
    ensures Quantize(x, unit) == RoundHalfUp(c) as real * unit
  {
    assert x / unit == c;
  }

  lemma MonotoneProduct(x: real, y: real, d: real)
    requires d > 0.0
    ensures x <= y ==> x * d <= y * d
    ensures x < y ==> x * d < y * d
  {
  }

  lemma MonotoneQuotient(x: real, y: real, d: real)
    requires d > 0.0 && x <= y
    ensures x / d <= y / d
  {
    var r := 1.0 / d;
    assert x / d == x * r && y / d == y * r;
    MonotoneProduct(x, y, r);
  }

  lemma NonNegativeProduct(a: real, b: real)
    requires a >= 0.0 && b >= 0.0
    ensures a * b >= 0.0
    ensures a == 0.0 ==> a * b == 0.0
  {
  }

  /** A quotient whose numerator is off by at most a half still rounds to `k`. */
  lemma QuotientIsNear(m: real, k: int, e: real, d: real)
    requires m == k as real * d + e && Abs(e) <= 0.5 && d >= 1.0 && (d == 1.0 ==> e == 0.0)
    ensures RoundHalfUp(m / d) == k
  {
    DivideSum(m, k as real, e, d);
    DivideBounds(e, d);
    RoundsTo(m / d, k);
  }

  lemma QuantizeScaled(x: real, k: int, w: real, t: real, unit: real)
    requires unit > 0.0 && x == k as real * w && w == t * unit
    ensures Quantize(x, unit) == RoundHalfUp(k as real * t) as real * unit
  {
    assert k as real * t * unit == k as real * (t * unit);
    QuantizeInUnits(x, unit, k as real * t);
  }

  lemma DistributeDifference(a: real, b: real, d: real)
    ensures (a - b) * d == a * d - b * d
  {
  }

  lemma Triangle(z: real, w: real, x: real, p: real, q: real)
    requires Abs(z - w) <= p && Abs(w - x) <= q
    ensures Abs(z - x) <= p + q
  {
  }

  /** Quantizing gives the multiple of the unit that is nearest, ties away from zero. */
  lemma QuantizeIff(x: real, unit: real, k: int)
    requires unit > 0.0
    ensures Quantize(x, unit) == k as real * unit <==> Nearest(x / unit, k)
  {
    RoundHalfUpIff(x / unit, k);
    var r := RoundHalfUp(x / unit);
    if r < k { MonotoneProduct(r as real, k as real, unit); }
    if k < r { MonotoneProduct(k as real, r as real, unit); }
  }

  lemma QuantizeError(x: real, unit: real)
    requires unit > 0.0
    ensures Abs(Quantize(x, unit) - x) <= 0.5 * unit
  {
    var c := x / unit;
    RoundError(c);
    var r := RoundHalfUp(c) as real;
    MultiplyBound(r - c, 0.5, unit);
    DistributeDifference(r, c, unit);
    assert c * unit == x;
  }

  lemma QuantizeMonotone(x: real, y: real, unit: real)
    requires unit > 0.0 && x <= y
    ensures Quantize(x, unit) <= Quantize(y, unit)
  {
    MonotoneQuotient(x, y, unit);
    RoundMonotone(x / unit, y / unit);
    MonotoneProduct(RoundHalfUp(x / unit) as real, RoundHalfUp(y / unit) as real, unit);
  }

  lemma CeilingOf(q: real) returns (k: int)
    ensures q <= k as real < q + 1.0
  {
    k := if q.Floor as real == q then q.Floor else q.Floor + 1;
  }

  lemma NextAfter(q: real) returns (k: int)
    requires q > 0.0
    ensures k >= 1 && q < k as real <= q + 1.0
  {
    k := q.Floor + 1;
  }

  lemma ScaledBelow(q: real, k: real, step: real, half: real)
    requires 0.0 < step && q * step == half && q < k
    ensures half < k * step
  {
    MonotoneProduct(q, k, step);
  }

  lemma ScaledAtMost(k: real, q: real, step: real, half: real)
    requires 0.0 < step && q * step == half && k <= q
    ensures k * step <= half
  {
    MonotoneProduct(k, q, step);
  }

  lemma LessOne(scaled: real, before: real, step: real)
    requires before <= 0.5 && before == scaled - step && step < 1.0
    ensures scaled < 1.5
  {
  }

  lemma HalfQuotient(step: real) returns (q: real)
    requires 0.0 < step
    ensures q > 0.0 && q * step == 0.5
  {
    q := 0.5 / step;
  }
}
