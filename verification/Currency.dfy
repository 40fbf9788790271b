/** Currency conversion across the default currency, rounded once at the end. */
module Currency {
  import opened Rounding
  import opened Versioning

  function Unit(places: nat): (u: real)
    ensures u > 0.0
  {
    if places == 0 then 1.0 else Unit(places - 1) / 10.0
  }

  /** `rate` is units of this currency per unit of the default currency. */
  datatype Currency = Currency(rate: real, places: nat)
  {
    function FromDefault(amount: real): real
    {
      amount * rate
    }

    /** None stands for the error on a rate of zero. */
    function ToDefault(amount: real): Option<real>
    {
      if rate == 0.0 then None else Some(amount / rate)
    }

    function ConvertTo(amount: real, target: Currency): Option<real>
    {
      match ToDefault(amount)
      case None => None
      case Some(inDefault) => Some(Quantize(target.FromDefault(inDefault), Unit(target.places)))
    }

    predicate Positive()
    {
      rate > 0.0
    }
  }

  function Pow10(n: nat): (p: nat)
    ensures p > 0
  {
    if n == 0 then 1 else 10 * Pow10(n - 1)
  }

  /** The unit is the decimal with that many places. */
  lemma {:induction false} UnitIsDecimal(n: nat)
    ensures Unit(n) * Pow10(n) as real == 1.0
    ensures Unit(n) == 1.0 / Pow10(n) as real
  {
    if n > 0 {
      UnitIsDecimal(n - 1);
      var u, p := Unit(n - 1), Pow10(n - 1) as real;
      assert u / 10.0 * (10.0 * p) == u * p;
    }
  }

  lemma ByUnit(x: real, u: real, p: real)
    requires u > 0.0 && u * p == 1.0
    ensures x / u == x * p
  {
    QuotientTimes(x, u);
    assert x / u * (u * p) == x / u * u * p;
  }

  /** The amount times one rate by another. */
  function Exact(x: real, from: real, to: real): real
    requires from != 0.0
  {
    x * to / from
  }

  /** `k` times the unit with that many places. */
  function Decimal(k: int, places: nat): real
  {
    k as real / Pow10(places) as real
  }

  /** The amount counted in that unit. */
  function Counted(x: real, places: nat): real
  {
    x * Pow10(places) as real
  }

  lemma UnitsNearest(exact: real, u: real, p: real, k: int, decimal: real, counted: real)
    requires u > 0.0 && p > 0.0 && u * p == 1.0
    requires decimal == k as real / p && counted == exact * p
    ensures Quantize(exact, u) == decimal <==> Nearest(counted, k)
  {
    ByUnit(exact, u, p);
    QuantizeIff(exact, u, k);
    WholeUnits(k as real, u, p);
  }

  lemma DecimalNearest(exact: real, places: nat, k: int)
    ensures Quantize(exact, Unit(places)) == Decimal(k, places) <==> Nearest(Counted(exact, places), k)
  {
    UnitIsDecimal(places);
    UnitsNearest(exact, Unit(places), Pow10(places) as real, k, Decimal(k, places), Counted(exact, places));
  }

  lemma SameQuantized(x: real, y: real, unit: real)
    requires unit > 0.0 && x == y
    ensures Quantize(x, unit) == Quantize(y, unit)
  {
  }

  lemma ConvertsExactly(a: Currency, b: Currency, x: real)
    requires a.rate != 0.0
    ensures a.ConvertTo(x, b) == Some(Quantize(Exact(x, a.rate, b.rate), Unit(b.places)))
  {
    CrossRate(x, a.rate, b.rate);
    SameQuantized(b.FromDefault(x / a.rate), Exact(x, a.rate, b.rate), Unit(b.places));
  }

  /** Conversion fails exactly on a source rate of zero. Else the result is the decimal
      with the target's places that is nearest to the amount times the target's rate by
      the source's, ties away from zero, and no other. */
  lemma ConvertToNearest(a: Currency, b: Currency, x: real, k: int)
    ensures a.ConvertTo(x, b) == None <==> a.rate == 0.0
    ensures a.rate != 0.0 ==>
      (a.ConvertTo(x, b) == Some(Decimal(k, b.places)) <==> Nearest(Counted(Exact(x, a.rate, b.rate), b.places), k))
  {
    if a.rate != 0.0 {
      ConvertsExactly(a, b, x);
      DecimalNearest(Exact(x, a.rate, b.rate), b.places, k);
    }
  }

  lemma CrossRate(x: real, r: real, s: real)
    requires r != 0.0
    ensures x / r * s == Exact(x, r, s)
  {
    QuotientTimes(x, r);
    assert x / r * s * r == x / r * r * s;
  }

  lemma WholeUnits(k: real, u: real, p: real)
    requires p > 0.0 && u * p == 1.0
    ensures k * u == k / p
  {
    assert k * u * p == k * (u * p);
  }

  /** The exact amount in the other currency. */
  function Across(a: Currency, b: Currency, x: real): real
    requires a.Positive()
  {
    b.FromDefault(x / a.rate)
  }

  lemma ConvertIsAcross(a: Currency, b: Currency, x: real)
    requires a.Positive()
    ensures a.ConvertTo(x, b) == Some(Quantize(Across(a, b, x), Unit(b.places)))
  {
  }

  /** Units of b per unit of a. */
  function Ratio(a: Currency, b: Currency): real
    requires a.Positive()
  {
    b.rate / a.rate
  }

  lemma RatioFacts(a: Currency, b: Currency)
    requires a.Positive() && b.Positive()
    ensures Ratio(a, b) > 0.0 && Ratio(b, a) > 0.0 && Ratio(a, b) * Ratio(b, a) == 1.0
  {
  }

  lemma AcrossIsProduct(a: Currency, b: Currency, x: real)
    requires a.Positive()
    ensures Across(a, b, x) == x * Ratio(a, b)
  {
  }

  lemma AcrossBack(a: Currency, b: Currency, x: real, y: real)
    requires a.Positive() && b.Positive()
    ensures Across(b, a, y) - x == (y - Across(a, b, x)) * Ratio(b, a)
  {
    RatioFacts(a, b);
    AcrossIsProduct(b, a, y);
    AcrossIsProduct(a, b, x);
    Cancel(x, Ratio(a, b), Ratio(b, a));
    DistributeDifference(y, Across(a, b, x), Ratio(b, a));
  }

  lemma Cancel(x: real, r: real, s: real)
    requires r * s == 1.0
    ensures x * r * s == x
  {
    assert x * r * s == x * (r * s);
  }

  lemma BackError(a: Currency, b: Currency, x: real, y: real, h: real)
    requires a.Positive() && b.Positive() && Abs(y - Across(a, b, x)) <= h
    ensures Abs(Across(b, a, y) - x) <= h * Ratio(b, a)
  {
    RatioFacts(a, b);
    AcrossBack(a, b, x, y);
    MultiplyBound(y - Across(a, b, x), h, Ratio(b, a));
  }

  lemma ThereAndBack(a: Currency, b: Currency, x: real)
    requires a.Positive() && b.Positive()
    ensures a.ConvertTo(x, b).Some?
    ensures b.ConvertTo(a.ConvertTo(x, b).value, a)
         == Some(Quantize(Across(b, a, Quantize(Across(a, b, x), Unit(b.places))), Unit(a.places)))
  {
    ConvertIsAcross(a, b, x);
    ConvertIsAcross(b, a, Quantize(Across(a, b, x), Unit(b.places)));
  }

  lemma QuantizedWithin(x: real, unit: real, y: real, h: real)
    requires unit > 0.0 && y == Quantize(x, unit) && h == 0.5 * unit
    ensures Abs(y - x) <= h
  {
    QuantizeError(x, unit);
  }

  /** Converting there and back moves any amount by at most half a unit of its own
      currency plus half a unit of the other one, valued in its own. */
  lemma RoundTripBound(a: Currency, b: Currency, x: real)
    requires a.Positive() && b.Positive()
    ensures a.ConvertTo(x, b).Some? && b.ConvertTo(a.ConvertTo(x, b).value, a).Some?
    ensures Abs(b.ConvertTo(a.ConvertTo(x, b).value, a).value - x) <= HalfUnit(a) + HalfUnit(b) * Ratio(b, a)
  {
    ThereAndBack(a, b, x);
    var y := Quantize(Across(a, b, x), Unit(b.places));
    QuantizedWithin(Across(a, b, x), Unit(b.places), y, HalfUnit(b));
    BackError(a, b, x, y, HalfUnit(b));
    var z := Quantize(Across(b, a, y), Unit(a.places));
    QuantizedWithin(Across(b, a, y), Unit(a.places), z, HalfUnit(a));
    Triangle(z, Across(b, a, y), x, HalfUnit(a), HalfUnit(b) * Ratio(b, a));
  }

  function HalfUnit(a: Currency): real
  {
    0.5 * Unit(a.places)
  }

  lemma AcrossMonotone(a: Currency, b: Currency, x: real, y: real)
    requires a.Positive() && b.Positive() && x <= y
    ensures Across(a, b, x) <= Across(a, b, y)
  {
    MonotoneQuotient(x, y, a.rate);
    MonotoneProduct(x / a.rate, y / a.rate, b.rate);
  }

  /** A larger amount never converts to a smaller one. */
  lemma ConvertMonotone(a: Currency, b: Currency, x: real, y: real)
    requires a.Positive() && b.Positive() && x <= y
    ensures a.ConvertTo(x, b).Some? && a.ConvertTo(y, b).Some?
    ensures a.ConvertTo(x, b).value <= a.ConvertTo(y, b).value
  {
    ConvertIsAcross(a, b, x);
    ConvertIsAcross(a, b, y);
    AcrossMonotone(a, b, x, y);
    QuantizeMonotone(Across(a, b, x), Across(a, b, y), Unit(b.places));
  }

  // ---- When the round trip is exact ------------------------------------------------------

  /** `k` units over here, in units over there, when one is worth `t` of them. */
  function There(t: real, k: int): int
  {
    RoundHalfUp(k as real * t)
  }

  function Back(t: real, k: int): int
    requires t > 0.0
  {
    RoundHalfUp(There(t, k) as real / t)
  }

  lemma FineUnitsReturn(t: real, k: int)
    requires t >= 1.0
    ensures Back(t, k) == k
  {
    var x := k as real * t;
    RoundError(x);
    if t == 1.0 { RoundsTo(x, k); }
    QuotientIsNear(There(t, k) as real, k, There(t, k) as real - x, t);
  }

  /** The first multiple of a unit's shortfall beyond a half. */
  lemma FirstBeyondHalf(step: real) returns (k: int, r: real)
    requires 0.0 < step < 1.0
    ensures r == k as real && k >= 1 && 0.5 < r * step < 1.5 && 0.0 <= (r - 1.0) * step <= 0.5
    ensures k == 1 ==> (r - 1.0) * step == 0.0
  {
    var q := HalfQuotient(step);
    k := NextAfter(q);
    r := k as real;
    BeyondWindow(q, r, step);
    NonNegativeProduct(r - 1.0, step);
  }

  lemma BeyondWindow(q: real, k: real, step: real)
    requires 0.0 < step < 1.0 && q * step == 0.5 && q < k <= q + 1.0
    ensures 0.5 < k * step < 1.5
    ensures (k - 1.0) * step <= 0.5
  {
    ScaledBelow(q, k, step, 0.5);
    ScaledAtMost(k - 1.0, q, step, 0.5);
    DistributeDifference(k, 1.0, step);
    LessOne(k * step, (k - 1.0) * step, step);
  }

  lemma NeighboursMeet(k: int, x: real, x': real, lost: real, lost': real)
    requires k >= 1 && 0.5 < lost < 1.5 && 0.0 <= lost' <= 0.5 && (k == 1 ==> lost' == 0.0)
    requires x == k as real - lost && x' == k as real - 1.0 - lost'
    ensures RoundHalfUp(x) == RoundHalfUp(x')
  {
    RoundsTo(x, k - 1);
    RoundHalfUpIff(x', k - 1);
  }

  lemma Complement(c: real, t: real, step: real)
    requires step == 1.0 - t
    ensures c * t == c - c * step
  {
  }

  /** With a coarser unit over there, two neighbouring amounts meet. */
  lemma CoarseUnitsCollide(t: real) returns (k: int)
    requires 0.0 < t < 1.0
    ensures There(t, k) == There(t, k - 1)
  {
    var step := 1.0 - t;
    var r;
    k, r := FirstBeyondHalf(step);
    Complement(r, t, step);
    Complement(r - 1.0, t, step);
    NeighboursMeet(k, r * t, (r - 1.0) * t, r * step, (r - 1.0) * step);
    ThereOf(t, k, r);
    ThereOf(t, k - 1, r - 1.0);
  }

  lemma ThereOf(t: real, k: int, r: real)
    requires r == k as real
    ensures There(t, k) == RoundHalfUp(r * t)
  {
  }

  lemma BackIff(t: real)
    requires t > 0.0
    ensures t >= 1.0 <==> forall k: int :: Back(t, k) == k
  {
    if t >= 1.0 {
      forall k: int ensures Back(t, k) == k { FineUnitsReturn(t, k); }
    } else {
      var k := CoarseUnitsCollide(t);
      assert Back(t, k) == Back(t, k - 1);
    }
  }

  /** `k` units of a currency. */
  function Units(a: Currency, k: int): real
  {
    k as real * Unit(a.places)
  }

  /** What a unit of a is worth in units of b. */
  function UnitWorth(a: Currency, b: Currency): real
    requires a.Positive()
  {
    Across(a, b, Unit(a.places)) / Unit(b.places)
  }

  lemma UnitWorthFacts(a: Currency, b: Currency)
    requires a.Positive() && b.Positive()
    ensures UnitWorth(a, b) > 0.0 && UnitWorth(a, b) * UnitWorth(b, a) == 1.0
  {
    RatioFacts(a, b);
    AcrossIsProduct(a, b, Unit(a.places));
    AcrossIsProduct(b, a, Unit(b.places));
    Reciprocal(Unit(a.places), Unit(b.places), Ratio(a, b), Ratio(b, a));
  }

  lemma Reciprocal(u: real, v: real, r: real, s: real)
    requires u > 0.0 && v > 0.0 && r > 0.0 && s > 0.0 && r * s == 1.0
    ensures u * r / v > 0.0 && v * s / u > 0.0 && (u * r / v) * (v * s / u) == 1.0
  {
    assert (u * r / v) * (v * s / u) == (u / u) * (v / v) * (r * s);
  }

  lemma DivideByReciprocal(x: real, t: real, w: real)
    requires t > 0.0 && t * w == 1.0
    ensures x / t == x * w
  {
    assert x * w * t == x * (w * t);
  }

  lemma AcrossScales(a: Currency, b: Currency, k: real, u: real)
    requires a.Positive()
    ensures Across(a, b, k * u) == k * Across(a, b, u)
  {
    AcrossIsProduct(a, b, k * u);
    AcrossIsProduct(a, b, u);
    assert k * u * Ratio(a, b) == k * (u * Ratio(a, b));
  }

  lemma ConvertInUnits(a: Currency, b: Currency, k: int)
    requires a.Positive() && b.Positive()
    ensures a.ConvertTo(Units(a, k), b) == Some(Units(b, There(UnitWorth(a, b), k)))
  {
    ConvertIsAcross(a, b, Units(a, k));
    UnitsAcross(a, b, k);
    WorthTimesUnit(a, b);
    QuantizeThere(Across(a, b, Units(a, k)), k, Across(a, b, Unit(a.places)), UnitWorth(a, b), b);
  }

  lemma UnitsAcross(a: Currency, b: Currency, k: int)
    requires a.Positive()
    ensures Across(a, b, Units(a, k)) == k as real * Across(a, b, Unit(a.places))
  {
    AcrossScales(a, b, k as real, Unit(a.places));
  }

  lemma QuantizeThere(x: real, k: int, w: real, t: real, b: Currency)
    requires x == k as real * w && w == t * Unit(b.places)
    ensures Quantize(x, Unit(b.places)) == Units(b, There(t, k))
  {
    QuantizeScaled(x, k, w, t, Unit(b.places));
  }

  lemma WorthTimesUnit(a: Currency, b: Currency)
    requires a.Positive()
    ensures Across(a, b, Unit(a.places)) == UnitWorth(a, b) * Unit(b.places)
  {
  }

  lemma BackIsThereThere(t: real, w: real, k: int)
    requires t > 0.0 && t * w == 1.0
    ensures Back(t, k) == There(w, There(t, k))
  {
    DivideByReciprocal(There(t, k) as real, t, w);
  }

  lemma RoundTripInUnits(a: Currency, b: Currency, k: int)
    requires a.Positive() && b.Positive() && UnitWorth(a, b) > 0.0
    ensures a.ConvertTo(Units(a, k), b).Some?
    ensures b.ConvertTo(a.ConvertTo(Units(a, k), b).value, a) == Some(Units(a, Back(UnitWorth(a, b), k)))
  {
    UnitWorthFacts(a, b);
    ConvertInUnits(a, b, k);
    ConvertInUnits(b, a, There(UnitWorth(a, b), k));
    BackIsThereThere(UnitWorth(a, b), UnitWorth(b, a), k);
  }

  /** `k` units of a come back as they went. */
  ghost predicate Returns(a: Currency, b: Currency, k: int)
  {
    a.ConvertTo(Units(a, k), b).Some? && b.ConvertTo(a.ConvertTo(Units(a, k), b).value, a) == Some(Units(a, k))
  }

  lemma ReturnsIff(a: Currency, b: Currency, k: int)
    requires a.Positive() && b.Positive() && UnitWorth(a, b) > 0.0
    ensures Returns(a, b, k) <==> Back(UnitWorth(a, b), k) == k
  {
    RoundTripInUnits(a, b, k);
    UnitsInjective(a, Back(UnitWorth(a, b), k), k);
  }

  /** There and back is exact for every amount in whole units of the first
      currency exactly when one of its units is worth at least one unit of the
      second. */
  lemma RoundTripExactIff(a: Currency, b: Currency)
    requires a.Positive() && b.Positive()
    ensures Unit(b.places) * a.rate <= Unit(a.places) * b.rate <==> forall k: int :: Returns(a, b, k)
  {
    UnitWorthFacts(a, b);
    UnitWorthAtLeastOne(a, b);
    BackIff(UnitWorth(a, b));
    forall k: int ensures Returns(a, b, k) <==> Back(UnitWorth(a, b), k) == k { ReturnsIff(a, b, k); }
  }

  lemma UnitWorthAtLeastOne(a: Currency, b: Currency)
    requires a.Positive() && b.Positive()
    ensures UnitWorth(a, b) >= 1.0 <==> Unit(b.places) * a.rate <= Unit(a.places) * b.rate
  {
    AtLeastOne(Across(a, b, Unit(a.places)), Unit(b.places));
    AcrossAtLeast(a, b, Unit(a.places), Unit(b.places));
  }

  lemma AcrossAtLeast(a: Currency, b: Currency, x: real, y: real)
    requires a.Positive()
    ensures y <= Across(a, b, x) <==> y * a.rate <= x * b.rate
  {
    assert x / a.rate * b.rate * a.rate == x * b.rate;
    MonotoneProduct(y, Across(a, b, x), a.rate);
    MonotoneProduct(Across(a, b, x), y, a.rate);
  }

  lemma UnitsInjective(a: Currency, j: int, k: int)
    ensures Units(a, j) == Units(a, k) <==> j == k
  {
    MonotoneProduct(j as real, k as real, Unit(a.places));
    MonotoneProduct(k as real, j as real, Unit(a.places));
  }

  lemma AtLeastOne(w: real, v: real)
    requires v > 0.0
    ensures w / v >= 1.0 <==> v <= w
  {
    assert w / v * v == w;
    MonotoneProduct(1.0, w / v, v);
    MonotoneProduct(w / v, 1.0, v);
  }
}
