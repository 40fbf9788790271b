/** Up to which rate a gross amount survives taking the net out and adding the tax
    back: the exact boundary, for every rate with two decimals. */
module TaxBoundary {
  import opened Rounding
  import opened Tax

  /** The gross that comes back differs from `g` cents by at most one cent. */
  ghost predicate WithinCent(t: Tax, g: int)
    requires t.rate >= 0.0
  {
    Abs(t.CalculateGross(t.ExtractNet(Cents(g))) - Cents(g)) <= 0.01
  }

  /** The rate of `c` hundredths of a percent. */
  function RateOf(c: nat): (t: Tax)
    ensures t.rate >= 0.0
  {
    Tax(c as real / 100.0)
  }

  // ---- A common divisor and its combination -----------------------------------------------

  lemma DivideStep(a: nat, b: nat, h: nat, i: nat, j: nat, u: int, v: int)
    requires b > 0 && b == h * i && a % b == h * j && h == u * b + v * (a % b)
    ensures a == h * (a / b * i + j)
    ensures h == v * a + (u - v * (a / b)) * b
  {
    var q, r := a / b, a % b;
    assert a == q * b + r;
    assert q * (h * i) == h * (q * i);
    assert h * (q * i) + h * j == h * (q * i + j);
    assert v * (q * b + r) == v * q * b + v * r;
    assert (u - v * q) * b == u * b - v * q * b;
  }

  /** Euclid: a divisor of both numbers that is a combination of them. */
  lemma {:induction false} Bezout(a: nat, b: nat) returns (h: nat, i: nat, j: nat, u: int, v: int)
    requires a > 0
    ensures h > 0 && a == h * i && b == h * j && h == u * a + v * b
    decreases b
  {
    if b == 0 {
      h, i, j, u, v := a, 1, 0, 1, 0;
    } else {
      var i', j', u', v';
      h, i', j', u', v' := Bezout(b, a % b);
      DivideStep(a, b, h, i', j', u', v');
      i, j, u, v := a / b * i' + j', i', v', u' - v' * (a / b);
    }
  }

  // ---- A multiple just above a half -------------------------------------------------------------

  /** Some multiple of `k` exceeds a multiple of 10000 by at least a half of it, and
      by at most a half of 10000 + k. */
  lemma MultipleNearHalf(k: nat) returns (n: nat, t: nat, y: nat)
    requires 1 <= k < 10000
    ensures n >= 1 && n * k == 10000 * t + y && 5000 <= y && 2 * y <= 10000 + k
  {
    var h, i, j, u, v := Bezout(k, 10000);
    var s := (j + 1) / 2;
    y := h * s;
    HalfMultiple(h, i, j, k);
    var n0, t0 := s * u, -(s * v);
    Combine(s, u, v, h, k);
    var w: nat := if n0 >= 0 then n0 + 1 else -n0 + 1;
    var n', t' := n0 + 10000 * w, t0 + k * w;
    Shift(n0, t0, k, w, y);
    assert n' >= 10000;
    AtLeast(n', k);
    n, t := n', t';
  }

  lemma HalfMultiple(h: nat, i: nat, j: nat, k: nat)
    requires h > 0 && k >= 1 && k == h * i && 10000 == h * j
    ensures var y := h * ((j + 1) / 2); 5000 <= y && 2 * y <= 10000 + k
  {
    assert i >= 1;
    assert h * 1 <= h * i;
    var s := (j + 1) / 2;
    assert j <= 2 * s <= j + 1;
    assert h * j <= h * (2 * s) <= h * (j + 1);
    assert h * (2 * s) == 2 * (h * s);
    assert h * (j + 1) == h * j + h;
  }

  lemma Combine(s: int, u: int, v: int, h: int, k: int)
    requires h == u * k + v * 10000
    ensures s * u * k == 10000 * -(s * v) + h * s
  {
    assert s * (u * k + v * 10000) == s * u * k + s * v * 10000;
  }

  lemma Shift(n: int, t: int, k: int, w: int, y: int)
    requires n * k == 10000 * t + y
    ensures (n + 10000 * w) * k == 10000 * (t + k * w) + y
  {
    assert (n + 10000 * w) * k == n * k + 10000 * w * k;
    assert 10000 * (t + k * w) == 10000 * t + 10000 * (w * k);
  }

  lemma AtLeast(n: int, k: int)
    requires n >= 0 && k >= 1
    ensures n * k >= n
  {
    assert n * (k - 1) >= 0;
    assert n * (k - 1) == n * k - n;
  }

  // ---- The boundary ---------------------------------------------------------------------------------

  /** A gross whose net is `n` cents and which comes back as `m` cents. */
  lemma ComesBackAs(c: nat, g: int, n: int, m: int)
    requires RoundHalfUp(g as real / RateOf(c).GrossFactor()) == n
    requires n + RoundHalfUp(RateOf(c).Due(n as real)) == m && (m > g + 1 || m < g - 1)
    ensures !WithinCent(RateOf(c), g)
  {
    var t := RateOf(c);
    ExtractInCents(t, g, g as real / t.GrossFactor());
    GrossInCents(t, n, t.Due(n as real));
    CentsAdd(m, g);
    assert Abs(m as real - g as real) >= 2.0;
  }

  lemma FactorOf(c: nat)
    ensures RateOf(c).GrossFactor() == (10000 + c) as real / 10000.0
  {
  }

  lemma DueOf(c: nat, n: int)
    ensures RateOf(c).Due(n as real) == (n * c) as real / 10000.0
  {
    assert (n * c) as real == n as real * c as real;
  }

  lemma CancelFactor(x: real, y: real, d: real)
    requires d > 0.0 && x * d <= y * d
    ensures x <= y
    ensures x * d < y * d ==> x < y
  {
    if y < x { MonotoneProduct(y, x, d); }
  }

  /** The quotient rounds to `n` when the numerator is within half a divisor below it. */
  lemma RoundsUpTo(g: int, n: nat, d: real)
    requires d > 0.0 && n >= 1 && n as real * d - d / 2.0 <= g as real < n as real * d
    ensures RoundHalfUp(g as real / d) == n
  {
    var x := g as real / d;
    QuotientTimes(g as real, d);
    DistributeDifference(n as real, 0.5, d);
    CancelFactor(n as real - 0.5, x, d);
    CancelFactor(x, n as real, d);
    RoundHalfUpIff(x, n);
  }

  /** Between 200% and 300%: a net whose exact tax ends just above half a cent. */
  lemma MissBelow300(c: nat) returns (g: int)
    requires 20000 < c < 30000
    ensures !WithinCent(RateOf(c), g)
  {
    var k := c - 20000;
    var n, t, y := MultipleNearHalf(k);
    g := 3 * n + t - 1;
    var d := RateOf(c).GrossFactor();
    FactorOf(c);
    assert n * c == n * k + 20000 * n;
    assert n * (10000 + c) == 30000 * n + 10000 * t + y;
    assert n as real * (10000 + c) as real == (n * (10000 + c)) as real;
    ScaleDown(n, c, 30000 * n + 10000 * t + y, d);
    RoundsUpTo(g, n, d);
    DueOf(c, n);
    var due := RateOf(c).Due(n as real);
    assert due == (20000 * n + 10000 * t + y) as real / 10000.0;
    RoundHalfUpIff(due, 2 * n + t + 1);
    ComesBackAs(c, g, n, g + 2);
  }

  lemma ScaleDown(n: nat, c: nat, product: int, d: real)
    requires d == (10000 + c) as real / 10000.0 && n * (10000 + c) == product
    ensures n as real * d == product as real / 10000.0
  {
    assert n as real * (10000 + c) as real == product as real;
  }

  /** From 300% on: two cents. */
  lemma MissFrom300(c: nat)
    requires c >= 30000
    ensures !WithinCent(RateOf(c), 2)
  {
    var d := RateOf(c).GrossFactor();
    FactorOf(c);
    var x := 2.0 / d;
    QuotientTimes(2.0, d);
    QuotientShrinks(2.0, d);
    CancelFactor(x, 0.5, d);
    if c == 30000 {
      RoundHalfUpIff(0.5, 1);
      DueOf(c, 1);
      RoundsTo(3.0, 3);
      ComesBackAs(c, 2, 1, 4);
    } else {
      RoundsTo(x, 0);
      DueOf(c, 0);
      RoundsTo(0.0, 0);
      ComesBackAs(c, 2, 0, 0);
    }
  }

  /** At 200% exactly, the tax is twice the net and needs no rounding. */
  lemma WithinCentAt200(g: int)
    ensures WithinCent(RateOf(20000), g)
  {
    var t := RateOf(20000);
    var n := NetError(t, g);
    RoundsTo((2 * n) as real, 2 * n);
    GrossInCents(t, n, (2 * n) as real);
    CentsAdd(3 * n, g);
    assert Abs((3 * n) as real - g as real) <= 1.5;
    assert -1 <= 3 * n - g <= 1;
  }

  /** Every gross amount comes back within one cent if and only if the rate is at
      most 200%. */
  lemma GrossWithinCentIff(c: nat)
    ensures (forall g: int :: WithinCent(RateOf(c), g)) <==> c <= 20000
  {
    if c < 20000 {
      forall g: int ensures WithinCent(RateOf(c), g) { GrossRoundTripWithinCent(RateOf(c), g); }
    } else if c == 20000 {
      forall g: int ensures WithinCent(RateOf(c), g) { WithinCentAt200(g); }
    } else if c < 30000 {
      var g := MissBelow300(c);
    } else {
      MissFrom300(c);
    }
  }
}
