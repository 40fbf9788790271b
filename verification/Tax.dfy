/** Tax on net amounts and out of gross amounts, and the two round trips. */
module Tax {
  import opened Rounding

  /** A rate is a percentage: 19.0 is 19%. */
  datatype Tax = Tax(rate: real)
  {
    /** The exact tax on a net amount. */
    function Due(net: real): real
    {
      net * rate / 100.0
    }

    /** The exact gross per unit of net; zero only at -100%, where extraction fails. */
    function GrossFactor(): real
    {
      1.0 + rate / 100.0
    }

    /** The exact gross of a net amount. */
    function Scaled(net: real): real
    {
      net * GrossFactor()
    }

    function Calculate(net: real): real
    {
      Quantize(Due(net), 0.01)
    }

    function CalculateGross(net: real): real
    {
      net + Calculate(net)
    }

    function Exact(gross: real): real
      requires GrossFactor() != 0.0
    {
      gross / GrossFactor()
    }

    function ExtractNet(gross: real): real
      requires GrossFactor() != 0.0
    {
      Quantize(Exact(gross), 0.01)
    }

    function ExtractTax(gross: real): real
      requires GrossFactor() != 0.0
    {
      gross - ExtractNet(gross)
    }
  }

  /** A whole number of cents. */
  function Cents(k: int): real
  {
    k as real * 0.01
  }

  lemma CentsAdd(a: int, b: int)
    ensures Cents(a) + Cents(b) == Cents(a + b)
    ensures Abs(Cents(a) - Cents(b)) == Abs(a as real - b as real) * 0.01
  {
  }

  lemma GrossInCents(t: Tax, k: int, c: real)
    requires c == t.Due(k as real)
    ensures t.CalculateGross(Cents(k)) == Cents(k + RoundHalfUp(c))
  {
    DueInCents(t, k);
    QuantizeInUnits(t.Due(Cents(k)), 0.01, c);
    CentsAdd(k, RoundHalfUp(c));
  }

  lemma DueInCents(t: Tax, k: int)
    ensures t.Due(Cents(k)) == t.Due(k as real) * 0.01
  {
    assert k as real * 0.01 * t.rate == 0.01 * (k as real * t.rate);
  }

  /** The tax is the cent amount nearest to the net times the percentage, ties away from zero. */
  lemma CalculateIff(t: Tax, net: real, k: int)
    ensures t.Calculate(net) == Cents(k) <==> Nearest(net * t.rate, k)
    ensures t.CalculateGross(net) == net + t.Calculate(net)
  {
    assert t.Due(net) / 0.01 == net * t.rate;
    QuantizeIff(t.Due(net), 0.01, k);
  }

  /** The net is the cent amount nearest to the gross divided by one plus the percentage,
      and the tax is the rest. */
  lemma ExtractIff(t: Tax, gross: real, k: int)
    requires t.rate != -100.0
    ensures t.ExtractNet(gross) == Cents(k) <==> Nearest(gross * 10000.0 / (100.0 + t.rate), k)
    ensures t.ExtractNet(gross) + t.ExtractTax(gross) == gross
  {
    var d := 100.0 + t.rate;
    assert t.GrossFactor() == d / 100.0;
    HundredTimes(gross, d);
    QuantizeIff(t.Exact(gross), 0.01, k);
  }

  lemma HundredTimes(gross: real, d: real)
    requires d != 0.0
    ensures gross / (d / 100.0) / 0.01 == gross * 10000.0 / d
  {
    var q := gross / d;
    QuotientTimes(gross, d);
    assert q * 100.0 * (d / 100.0) == q * d;
    assert gross / (d / 100.0) == q * 100.0;
    assert q * 10000.0 * d == gross * 10000.0;
    assert gross * 10000.0 / d == q * 10000.0;
  }

  lemma FactorIsOnePlusDue(t: Tax, c: real)
    ensures c * t.GrossFactor() == c + t.Due(c)
  {
  }

  /** The rounding error of a tax amount, in cents. */
  lemma GrossError(t: Tax, k: int) returns (e: real, m: int)
    ensures Abs(e) <= 0.5 && t.CalculateGross(Cents(k)) == Cents(m)
    ensures m as real == t.Scaled(k as real) + e
    ensures t.rate == 0.0 ==> e == 0.0
  {
    var c := t.Due(k as real);
    GrossInCents(t, k, c);
    RoundError(c);
    m := k + RoundHalfUp(c);
    e := RoundHalfUp(c) as real - c;
    FactorIsOnePlusDue(t, k as real);
    if t.rate == 0.0 { RoundsTo(c, 0); }
  }

  lemma ExtractInCents(t: Tax, m: int, c: real)
    requires t.rate >= 0.0 && c == m as real / t.GrossFactor()
    ensures t.ExtractNet(Cents(m)) == Cents(RoundHalfUp(c))
  {
    assert t.Exact(Cents(m)) == c * 0.01;
    QuantizeInUnits(t.Exact(Cents(m)), 0.01, c);
  }

  /** Despite two roundings, taking the net out of the gross gives back every
      cent-valued net amount, of either sign, at every rate that is not negative. */
  lemma NetRoundTrip(t: Tax, k: int)
    requires t.rate >= 0.0
    ensures t.ExtractNet(t.CalculateGross(Cents(k))) == Cents(k)
  {
    var d := t.GrossFactor();
    var e, m := GrossError(t, k);
    QuotientIsNear(m as real, k, e, d);
    ExtractInCents(t, m, m as real / d);
  }

  /** The exact gross of an extracted net, in cents. */
  lemma NetError(t: Tax, g: int) returns (n: int)
    requires t.rate >= 0.0
    ensures t.ExtractNet(Cents(g)) == Cents(n)
    ensures Abs(t.Scaled(n as real) - g as real) <= 0.5 * t.GrossFactor()
  {
    var d := t.GrossFactor();
    var x := g as real / d;
    ExtractInCents(t, g, x);
    RoundError(x);
    n := RoundHalfUp(x);
    QuotientTimes(g as real, d);
    NearProduct(n as real, x, d);
  }

  lemma NearProduct(n: real, x: real, d: real)
    requires d >= 0.0 && Abs(n - x) <= 0.5
    ensures Abs(n * d - x * d) <= 0.5 * d
  {
    MultiplyBound(n - x, 0.5, d);
    DistributeDifference(n, x, d);
  }

  /** The gross that comes back, in cents. */
  lemma GrossBack(t: Tax, g: int) returns (m: int)
    requires t.rate >= 0.0
    ensures t.CalculateGross(t.ExtractNet(Cents(g))) == Cents(m)
    ensures Abs(m as real - g as real) <= 0.5 * t.GrossFactor() + 0.5
    ensures t.ExtractNet(Cents(m)) == t.ExtractNet(Cents(g))
  {
    var n := NetError(t, g);
    var e;
    e, m := GrossError(t, n);
    AddErrors(m as real, t.Scaled(n as real), g as real, e, t.GrossFactor());
    NetRoundTrip(t, n);
  }

  lemma AddErrors(m: real, exact: real, g: real, e: real, d: real)
    requires Abs(exact - g) <= 0.5 * d && m == exact + e && Abs(e) <= 0.5
    ensures Abs(m - g) <= 0.5 * d + 0.5
  {
  }

  /** The other way round: adding the tax back to an extracted net misses the gross
      by at most half a cent times the gross factor plus half a cent, and a second
      extraction gives the same net again. */
  lemma GrossRoundTrip(t: Tax, g: int)
    requires t.rate >= 0.0
    ensures Abs(t.CalculateGross(t.ExtractNet(Cents(g))) - Cents(g)) <= (0.5 * t.GrossFactor() + 0.5) * 0.01
    ensures t.ExtractNet(t.CalculateGross(t.ExtractNet(Cents(g)))) == t.ExtractNet(Cents(g))
  {
    var m := GrossBack(t, g);
    CentsAdd(m, g);
  }

  /** Below 200% the miss is at most one cent. */
  lemma GrossRoundTripWithinCent(t: Tax, g: int)
    requires 0.0 <= t.rate < 200.0
    ensures Abs(t.CalculateGross(t.ExtractNet(Cents(g))) - Cents(g)) <= 0.01
  {
    var m := GrossBack(t, g);
    CentsAdd(m, g);
    assert Abs(m as real - g as real) < 2.0;
    assert -1 <= m - g <= 1;
  }

  /** Extracting splits a gross exactly into its two parts, each non-negative when
      the gross and the rate are. */
  lemma ExtractSplits(t: Tax, g: int)
    requires t.rate >= 0.0 && g >= 0
    ensures t.ExtractNet(Cents(g)) + t.ExtractTax(Cents(g)) == Cents(g)
    ensures 0.0 <= t.ExtractNet(Cents(g)) <= Cents(g) && 0.0 <= t.ExtractTax(Cents(g))
  {
    var d := t.GrossFactor();
    var x := g as real / d;
    var n := RoundHalfUp(x);
    ExtractInCents(t, g, x);
    QuotientShrinks(g as real, d);
    RoundUpOnTies(x);
    RoundMonotone(x, g as real);
    RoundsTo(g as real, g);
    assert 0 <= n <= g;
    CentsOrder(n, g);
  }

  lemma CentsOrder(n: int, g: int)
    requires 0 <= n <= g
    ensures 0.0 <= Cents(n) <= Cents(g)
  {
  }

  // ---- Negative rates ------------------------------------------------------------------

  lemma RoundIsOdd(x: real)
    ensures RoundHalfUp(-x) == -RoundHalfUp(x)
  {
    RoundHalfUpIff(-x, -RoundHalfUp(x));
    RoundHalfUpIff(x, RoundHalfUp(x));
  }

  /** The first whole number that reaches a half when multiplied by `step`. */
  lemma FirstHalf(step: real) returns (k: int, r: real)
    requires 0.0 < step < 1.0
    ensures r == k as real && 0.5 <= r * step < 1.5 && 0.0 <= (r - 1.0) * step < 0.5
  {
    var q := HalfQuotient(step);
    k := CeilingOf(q);
    r := k as real;
    HalfWindow(q, r, step);
    assert k >= 1;
    NonNegativeProduct(r - 1.0, step);
  }

  lemma HalfWindow(q: real, k: real, step: real)
    requires 0.0 < step < 1.0 && q * step == 0.5 && q <= k < q + 1.0
    ensures 0.5 <= k * step < 1.5
    ensures (k - 1.0) * step < 0.5
  {
    if q < k { ScaledBelow(q, k, step, 0.5); }
    ScaledAbove(k - 1.0, q, step, 0.5);
    DistributeDifference(k, 1.0, step);
    LessOne(k * step, (k - 1.0) * step, step);
  }

  lemma ScaledAbove(k: real, q: real, step: real, half: real)
    requires 0.0 < step && q * step == half && k < q
    ensures k * step < half
  {
    MonotoneProduct(k, q, step);
  }

  lemma DueOfNegativeRate(t: Tax, c: real, step: real)
    requires step == -t.rate / 100.0
    ensures t.Due(c) == -(c * step)
  {
  }

  /** Below zero per cent two neighbouring nets share a gross. */
  lemma NegativeRateCollides(t: Tax) returns (k: int)
    requires -100.0 < t.rate < 0.0
    ensures t.CalculateGross(Cents(k)) == t.CalculateGross(Cents(k - 1))
  {
    var step := -t.rate / 100.0;
    var r;
    k, r := FirstHalf(step);
    var x, y := r * step, (r - 1.0) * step;
    RoundHalfUpIff(x, 1);
    RoundsTo(y, 0);
    RoundIsOdd(x);
    RoundIsOdd(y);
    DueOfNegativeRate(t, r, step);
    DueOfNegativeRate(t, r - 1.0, step);
    assert (k - 1) as real == r - 1.0;
    GrossInCents(t, k, -x);
    GrossInCents(t, k - 1, -y);
  }

  /** The net round trip holds for all cent-valued nets exactly when the rate is
      not negative. */
  lemma NetRoundTripIff(t: Tax)
    requires t.rate > -100.0
    ensures t.rate >= 0.0 <==> forall k: int :: t.ExtractNet(t.CalculateGross(Cents(k))) == Cents(k)
  {
    if t.rate >= 0.0 {
      forall k: int ensures t.ExtractNet(t.CalculateGross(Cents(k))) == Cents(k) { NetRoundTrip(t, k); }
    } else {
      var k := NegativeRateCollides(t);
      assert Cents(k) != Cents(k - 1);
    }
  }
}
