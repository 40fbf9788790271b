/** Full-precision prices, the recorded cents of an invoice line and the displayed
    cents of a pricing block. Amounts are exact: results are stated before any
    value is cast to floating point. */
module Pricing {
  import opened Rounding
  import opened Versioning

  datatype TaxLine = TaxLine(code: string, name: string, rate: real)

  datatype PriceTax = PriceTax(code: string, name: string, rate: real, amount: real)

  datatype Price = Price(netto: real, taxes: seq<PriceTax>, brutto: real, currency: string)

  datatype Mode = NettoMode | BruttoMode

  // ---- The factory ---------------------------------------------------------------------

  /** The sum of the rates, as a fraction. */
  function CombinedRate(taxes: seq<TaxLine>): real
  {
    if taxes == [] then 0.0 else taxes[0].rate / 100.0 + CombinedRate(taxes[1..])
  }

  function TotalTax(netto: real, taxes: seq<TaxLine>): real
  {
    if taxes == [] then 0.0 else netto * taxes[0].rate / 100.0 + TotalTax(netto, taxes[1..])
  }

  function BruttoFromNetto(netto: real, taxes: seq<TaxLine>): real
  {
    netto + TotalTax(netto, taxes)
  }

  /** None stands for the division by zero when the rates add up to -100%. */
  function NettoFromBrutto(brutto: real, taxes: seq<TaxLine>): Option<real>
  {
    if 1.0 + CombinedRate(taxes) == 0.0 then None else Some(brutto / (1.0 + CombinedRate(taxes)))
  }

  function Applied(netto: real, taxes: seq<TaxLine>): (r: seq<PriceTax>)
    ensures |r| == |taxes|
  {
    if taxes == [] then []
    else [PriceTax(taxes[0].code, taxes[0].name, taxes[0].rate, netto * taxes[0].rate / 100.0)] + Applied(netto, taxes[1..])
  }

  /** `get_price_from_object`: the stored amount is a net or a gross one. */
  function PriceOf(raw: real, taxes: seq<TaxLine>, mode: Mode, currency: string): Option<Price>
  {
    match mode
    case NettoMode => Some(Price(raw, Applied(raw, taxes), BruttoFromNetto(raw, taxes), currency))
    case BruttoMode =>
      match NettoFromBrutto(raw, taxes)
      case None => None
      case Some(netto) => Some(Price(netto, Applied(netto, taxes), raw, currency))
  }

  function SumOf(amounts: seq<PriceTax>): real
  {
    if amounts == [] then 0.0 else amounts[0].amount + SumOf(amounts[1..])
  }

  /** The stated invariant of a price. */
  predicate Balanced(p: Price)
  {
    p.netto + SumOf(p.taxes) == p.brutto
  }

  lemma {:induction false} TotalIsProduct(netto: real, taxes: seq<TaxLine>)
    ensures TotalTax(netto, taxes) == netto * CombinedRate(taxes)
  {
    if taxes != [] {
      TotalIsProduct(netto, taxes[1..]);
      Spread(netto, taxes[0].rate, CombinedRate(taxes[1..]));
    }
  }

  lemma Spread(n: real, rate: real, rest: real)
    ensures n * rate / 100.0 + n * rest == n * (rate / 100.0 + rest)
  {
  }

  lemma {:induction false} AppliedSum(netto: real, taxes: seq<TaxLine>)
    ensures SumOf(Applied(netto, taxes)) == TotalTax(netto, taxes)
  {
    if taxes != [] {
      AppliedSum(netto, taxes[1..]);
      assert Applied(netto, taxes)[1..] == Applied(netto, taxes[1..]);
    }
  }

  lemma BruttoIsProduct(netto: real, taxes: seq<TaxLine>)
    ensures BruttoFromNetto(netto, taxes) == netto * (1.0 + CombinedRate(taxes))
  {
    TotalIsProduct(netto, taxes);
    var c := CombinedRate(taxes);
    assert netto * (1.0 + c) == netto + netto * c;
  }

  /** Netto and brutto determine each other, both ways, whatever the tax list. */
  lemma ModesAreInverse(amount: real, taxes: seq<TaxLine>)
    requires 1.0 + CombinedRate(taxes) != 0.0
    ensures NettoFromBrutto(BruttoFromNetto(amount, taxes), taxes) == Some(amount)
    ensures NettoFromBrutto(amount, taxes).Some? && BruttoFromNetto(NettoFromBrutto(amount, taxes).value, taxes) == amount
  {
    BruttoIsProduct(amount, taxes);
    var f := 1.0 + CombinedRate(taxes);
    QuotientOfProduct(BruttoFromNetto(amount, taxes), amount, f);
    BruttoIsProduct(amount / f, taxes);
    assert amount / f * f == amount;
  }

  lemma QuotientOfProduct(b: real, n: real, f: real)
    requires f != 0.0 && b == n * f
    ensures b / f == n
  {
  }

  /** A price exists except in gross mode when the rates add up to -100%, and then
      its net plus all its taxes is its gross, in both modes. */
  lemma PriceIsBalanced(raw: real, taxes: seq<TaxLine>, mode: Mode, currency: string)
    ensures PriceOf(raw, taxes, mode, currency) == None <==> mode == BruttoMode && CombinedRate(taxes) == -1.0
    ensures PriceOf(raw, taxes, mode, currency).Some? ==> Balanced(PriceOf(raw, taxes, mode, currency).value)
  {
    if PriceOf(raw, taxes, mode, currency).Some? {
      var p := PriceOf(raw, taxes, mode, currency).value;
      AppliedSum(p.netto, taxes);
      if mode == BruttoMode { ModesAreInverse(raw, taxes); }
    }
  }

  /** A net amount read in net mode and its gross read in gross mode are one price. */
  lemma ModesAgree(netto: real, taxes: seq<TaxLine>, currency: string)
    requires 1.0 + CombinedRate(taxes) != 0.0
    ensures PriceOf(BruttoFromNetto(netto, taxes), taxes, BruttoMode, currency) == PriceOf(netto, taxes, NettoMode, currency)
  {
    ModesAreInverse(netto, taxes);
  }

  // ---- Recorded and displayed cents ------------------------------------------------------

  /** `_to_cents`: the amount times the quantity, in whole cents. */
  function CentsOf(amount: real, quantity: int): int
  {
    RoundHalfUp(Scaled(amount, quantity))
  }

  /** The exact number of cents. */
  function Scaled(amount: real, quantity: int): real
  {
    amount * quantity as real / 0.01
  }

  lemma CentsAreQuantized(amount: real, quantity: int)
    ensures CentsOf(amount, quantity) as real * 0.01 == Quantize(amount * quantity as real, 0.01)
  {
    QuantizeInUnits(amount * quantity as real, 0.01, Scaled(amount, quantity));
  }

  predicate NearestCents(amount: real, quantity: int, cents: int)
  {
    Nearest(amount * quantity as real * 100.0, cents)
  }

  /** The cents are nearest to a hundred times the amount and quantity, ties away from zero. */
  lemma CentsIff(amount: real, quantity: int, k: int)
    ensures CentsOf(amount, quantity) == k <==> NearestCents(amount, quantity, k)
  {
    assert Scaled(amount, quantity) == amount * quantity as real * 100.0;
    RoundHalfUpIff(Scaled(amount, quantity), k);
  }

  /** One tax of an invoice line, as recorded. */
  datatype RecordedTax = RecordedTax(code: string, name: string, rate: real, amount: int)

  /** An invoice line's recorded fields, in cents. */
  datatype LineFields = LineFields(net: int, tax: int, breakdown: seq<RecordedTax>)

  function QuantizedAmounts(taxes: seq<PriceTax>, quantity: int): (r: seq<int>)
    ensures |r| == |taxes|
  {
    if taxes == [] then [] else [CentsOf(taxes[0].amount, quantity)] + QuantizedAmounts(taxes[1..], quantity)
  }

  function SumCents(cents: seq<int>): int
  {
    if cents == [] then 0 else cents[0] + SumCents(cents[1..])
  }

  /** The taxes paired with their recorded amounts. */
  function Recorded(taxes: seq<PriceTax>, amounts: seq<int>): (r: seq<RecordedTax>)
    requires |taxes| == |amounts|
    ensures |r| == |taxes|
  {
    if taxes == [] then []
    else [RecordedTax(taxes[0].code, taxes[0].name, taxes[0].rate, amounts[0])] + Recorded(taxes[1..], amounts[1..])
  }

  function LineTaxFields(p: Price, quantity: int): LineFields
  {
    var amounts := QuantizedAmounts(p.taxes, quantity);
    LineFields(CentsOf(p.netto, quantity), SumCents(amounts), Recorded(p.taxes, amounts))
  }

  /** One tax of a pricing block, as displayed. */
  datatype DisplayedTax = DisplayedTax(code: string, rate: real, amount: int)

  /** The displayed amounts of a pricing block, in cents. */
  datatype PricingBlock = PricingBlock(net: int, tax: int, gross: int, taxes: seq<DisplayedTax>)

  function Displayed(taxes: seq<PriceTax>): (r: seq<DisplayedTax>)
    ensures |r| == |taxes|
  {
    if taxes == [] then [] else [DisplayedTax(taxes[0].code, taxes[0].rate, CentsOf(taxes[0].amount, 1))] + Displayed(taxes[1..])
  }

  function BuildPricingBlock(p: Price): PricingBlock
  {
    PricingBlock(CentsOf(p.netto, 1), CentsOf(SumOf(p.taxes), 1), CentsOf(p.brutto, 1), Displayed(p.taxes))
  }

  // ---- Line by line ----------------------------------------------------------------------

  lemma {:induction false} AppliedAt(netto: real, taxes: seq<TaxLine>, k: nat)
    requires k < |taxes|
    ensures Applied(netto, taxes)[k] == PriceTax(taxes[k].code, taxes[k].name, taxes[k].rate, netto * taxes[k].rate / 100.0)
  {
    if k > 0 { AppliedAt(netto, taxes[1..], k - 1); }
  }

  /** A price lists the taxes of its object in order, each with its code, name, rate and
      share of the netto, in the given currency; the stored amount is its netto in net
      mode and its brutto in gross mode. */
  lemma PriceLists(raw: real, taxes: seq<TaxLine>, mode: Mode, currency: string, k: nat)
    requires PriceOf(raw, taxes, mode, currency).Some?
    ensures var p := PriceOf(raw, taxes, mode, currency).value;
      && p.currency == currency && |p.taxes| == |taxes|
      && raw == (if mode == NettoMode then p.netto else p.brutto)
      && (k < |taxes| ==>
            p.taxes[k] == PriceTax(taxes[k].code, taxes[k].name, taxes[k].rate, p.netto * taxes[k].rate / 100.0))
  {
    if k < |taxes| { AppliedAt(PriceOf(raw, taxes, mode, currency).value.netto, taxes, k); }
  }

  lemma {:induction false} RecordedAt(taxes: seq<PriceTax>, quantity: int, k: nat)
    requires k < |taxes|
    ensures QuantizedAmounts(taxes, quantity)[k] == CentsOf(taxes[k].amount, quantity)
    ensures Recorded(taxes, QuantizedAmounts(taxes, quantity))[k]
         == RecordedTax(taxes[k].code, taxes[k].name, taxes[k].rate, CentsOf(taxes[k].amount, quantity))
  {
    assert QuantizedAmounts(taxes, quantity)[1..] == QuantizedAmounts(taxes[1..], quantity);
    if k > 0 { RecordedAt(taxes[1..], quantity, k - 1); }
  }

  lemma {:induction false} DisplayedAt(taxes: seq<PriceTax>, k: nat)
    requires k < |taxes|
    ensures Displayed(taxes)[k] == DisplayedTax(taxes[k].code, taxes[k].rate, CentsOf(taxes[k].amount, 1))
  {
    if k > 0 { DisplayedAt(taxes[1..], k - 1); }
  }

  /** An invoice line records, and a pricing block displays, the nearest cents. */
  lemma CentsAreNearest(p: Price, quantity: int)
    ensures var line, block := LineTaxFields(p, quantity), BuildPricingBlock(p);
      && |line.breakdown| == |block.taxes| == |p.taxes|
      && NearestCents(p.netto, quantity, line.net)
      && NearestCents(p.netto, 1, block.net) && NearestCents(p.brutto, 1, block.gross) && NearestCents(SumOf(p.taxes), 1, block.tax)
  {
    CentsIff(p.netto, quantity, CentsOf(p.netto, quantity));
    CentsIff(p.netto, 1, CentsOf(p.netto, 1));
    CentsIff(p.brutto, 1, CentsOf(p.brutto, 1));
    CentsIff(SumOf(p.taxes), 1, CentsOf(SumOf(p.taxes), 1));
  }

  /** They do so for each tax of the price in order, with its own code and rate. */
  lemma CentsTaxByTax(p: Price, quantity: int, k: nat)
    requires k < |p.taxes|
    ensures var tax, recorded, displayed := p.taxes[k], LineTaxFields(p, quantity).breakdown[k], BuildPricingBlock(p).taxes[k];
      && recorded == RecordedTax(tax.code, tax.name, tax.rate, recorded.amount) && NearestCents(tax.amount, quantity, recorded.amount)
      && displayed == DisplayedTax(tax.code, tax.rate, displayed.amount) && NearestCents(tax.amount, 1, displayed.amount)
  {
    RecordedAt(p.taxes, quantity, k);
    DisplayedAt(p.taxes, k);
    CentsIff(p.taxes[k].amount, quantity, CentsOf(p.taxes[k].amount, quantity));
    CentsIff(p.taxes[k].amount, 1, CentsOf(p.taxes[k].amount, 1));
  }

  function RecordedSum(breakdown: seq<RecordedTax>): int
  {
    if breakdown == [] then 0 else breakdown[0].amount + RecordedSum(breakdown[1..])
  }

  lemma {:induction false} RecordedSumIs(taxes: seq<PriceTax>, amounts: seq<int>)
    requires |taxes| == |amounts|
    ensures RecordedSum(Recorded(taxes, amounts)) == SumCents(amounts)
  {
    if taxes != [] {
      assert Recorded(taxes, amounts)[1..] == Recorded(taxes[1..], amounts[1..]);
      RecordedSumIs(taxes[1..], amounts[1..]);
    }
  }

  // ---- Sums of rounded amounts ---------------------------------------------------------------

  function ExactSum(taxes: seq<PriceTax>, quantity: int): real
  {
    if taxes == [] then 0.0 else Scaled(taxes[0].amount, quantity) + ExactSum(taxes[1..], quantity)
  }

  lemma ScaledAdds(a: real, b: real, quantity: int)
    ensures Scaled(a, quantity) + Scaled(b, quantity) == Scaled(a + b, quantity)
  {
    var q := quantity as real;
    assert (a + b) * q == a * q + b * q;
  }

  lemma {:induction false} ExactSumIsScaled(taxes: seq<PriceTax>, quantity: int)
    ensures ExactSum(taxes, quantity) == Scaled(SumOf(taxes), quantity)
  {
    if taxes == [] {
      NonNegativeProduct(0.0, if quantity >= 0 then quantity as real else -quantity as real);
    } else {
      ExactSumIsScaled(taxes[1..], quantity);
      ScaledAdds(taxes[0].amount, SumOf(taxes[1..]), quantity);
    }
  }

  /** Rounding moves a value up by a full half only if it is positive, and down by
      a full half only if it is negative. */
  lemma FullHalf(x: real)
    ensures Abs(RoundHalfUp(x) as real - x) <= 0.5
    ensures RoundHalfUp(x) as real - x == 0.5 ==> x > 0.0
    ensures RoundHalfUp(x) as real - x == -0.5 ==> x < 0.0
  {
    RoundHalfUpIff(x, RoundHalfUp(x));
  }

  /** By how much the rounded amounts exceed the exact ones. */
  function Excess(taxes: seq<PriceTax>, quantity: int): real
  {
    SumCents(QuantizedAmounts(taxes, quantity)) as real - ExactSum(taxes, quantity)
  }

  lemma ExcessUnfolds(taxes: seq<PriceTax>, quantity: int)
    requires taxes != []
    ensures var x := Scaled(taxes[0].amount, quantity);
      && Excess(taxes, quantity) == RoundHalfUp(x) as real - x + Excess(taxes[1..], quantity)
      && ExactSum(taxes, quantity) == x + ExactSum(taxes[1..], quantity)
  {
    var b := QuantizedAmounts(taxes, quantity);
    assert b[1..] == QuantizedAmounts(taxes[1..], quantity);
  }

  /** Half a cent for each tax at most, and that much only on one side of zero. */
  lemma {:induction false} BreakdownError(taxes: seq<PriceTax>, quantity: int)
    ensures Abs(Excess(taxes, quantity)) <= 0.5 * |taxes| as real
    ensures Excess(taxes, quantity) == 0.5 * |taxes| as real ==> ExactSum(taxes, quantity) >= 0.0
    ensures Excess(taxes, quantity) == -0.5 * |taxes| as real ==> ExactSum(taxes, quantity) <= 0.0
  {
    if taxes != [] {
      BreakdownError(taxes[1..], quantity);
      ExcessUnfolds(taxes, quantity);
      FullHalf(Scaled(taxes[0].amount, quantity));
    }
  }

  lemma BalancedInCents(p: Price, quantity: int)
    requires Balanced(p)
    ensures Scaled(p.netto, quantity) + ExactSum(p.taxes, quantity) == Scaled(p.brutto, quantity)
  {
    ExactSumIsScaled(p.taxes, quantity);
    ScaledAdds(p.netto, SumOf(p.taxes), quantity);
  }

  // ---- Invoice lines ---------------------------------------------------------------------------

  /** By how many cents the recorded net plus tax misses the rounded gross. */
  function Drift(p: Price, quantity: int): int
  {
    LineTaxFields(p, quantity).net + LineTaxFields(p, quantity).tax - CentsOf(p.brutto, quantity)
  }

  function AbsInt(x: int): nat
  {
    if x >= 0 then x else -x
  }

  /** For any balanced price with n taxes and any quantity, the recorded tax is the
      sum of its breakdown, and net plus tax misses the rounded gross by at most
      (n+1)/2 cents: not all n + 2 roundings can be off by a full half at once. */
  lemma LineBound(p: Price, quantity: int)
    requires Balanced(p)
    ensures LineTaxFields(p, quantity).tax == RecordedSum(LineTaxFields(p, quantity).breakdown)
    ensures 2 * AbsInt(Drift(p, quantity)) <= |p.taxes| + 1
  {
    RecordedSumIs(p.taxes, QuantizedAmounts(p.taxes, quantity));
    BalancedInCents(p, quantity);
    BreakdownError(p.taxes, quantity);
    FullHalf(Scaled(p.netto, quantity));
    FullHalf(Scaled(p.brutto, quantity));
  }

  function Copies(n: nat): (r: seq<PriceTax>)
    ensures |r| == n && forall i :: 0 <= i < n ==> r[i].amount == 0.005
  {
    if n == 0 then [] else [PriceTax("T", "T", 100.0, 0.005)] + Copies(n - 1)
  }

  /** Half a cent net and n taxes of 100%. */
  function HalfCentPrice(n: nat): Price
  {
    Price(0.005, Copies(n), 0.005 * (n + 1) as real, "EUR")
  }

  lemma {:induction false} CopiesSum(n: nat)
    ensures SumOf(Copies(n)) == 0.005 * n as real
    ensures SumCents(QuantizedAmounts(Copies(n), 1)) == n
  {
    if n > 0 {
      CopiesSum(n - 1);
      assert Copies(n)[1..] == Copies(n - 1);
      assert QuantizedAmounts(Copies(n), 1)[1..] == QuantizedAmounts(Copies(n - 1), 1);
      RoundHalfUpIff(0.5, 1);
    }
  }

  /** Both bounds, for a line and for a pricing block, are reached for every number
      of taxes. */
  lemma SharpBoundIsReached(n: nat)
    ensures Balanced(HalfCentPrice(n)) && |HalfCentPrice(n).taxes| == n
    ensures Drift(HalfCentPrice(n), 1) == (n + 1) / 2
    ensures LineTaxFields(HalfCentPrice(n), 1).tax - BuildPricingBlock(HalfCentPrice(n)).tax == n / 2
  {
    CopiesSum(n);
    var p := HalfCentPrice(n);
    RoundHalfUpIff(0.5, 1);
    assert CentsOf(p.netto, 1) == 1;
    var g := Scaled(p.brutto, 1);
    assert g == (n + 1) as real / 2.0;
    var k := if n % 2 == 1 then (n + 1) / 2 else (n + 2) / 2;
    RoundHalfUpIff(g, k);
    RoundHalfUpIff(n as real / 2.0, (n + 1) / 2);
    assert Scaled(SumOf(p.taxes), 1) == n as real / 2.0;
  }

  // ---- Pricing blocks -------------------------------------------------------------------------------

  /** The displayed net plus tax is within one cent of the displayed gross, for any
      number of taxes, and equal to it without taxes; the displayed tax is within
      n/2 cents of the tax recorded on a line of one. */
  lemma BlockBound(p: Price)
    requires Balanced(p)
    ensures var b := BuildPricingBlock(p);
      && AbsInt(b.net + b.tax - b.gross) <= 1
      && (p.taxes == [] ==> b.net + b.tax == b.gross)
      && 2 * AbsInt(b.tax - LineTaxFields(p, 1).tax) <= |p.taxes|
      && b.net == LineTaxFields(p, 1).net
  {
    var b := BuildPricingBlock(p);
    BalancedInCents(p, 1);
    ExactSumIsScaled(p.taxes, 1);
    BreakdownError(p.taxes, 1);
    RoundError(Scaled(p.netto, 1));
    RoundError(Scaled(p.brutto, 1));
    FullHalf(Scaled(SumOf(p.taxes), 1));
    assert Abs((b.net + b.tax - b.gross) as real) <= 1.5;
    assert Abs((b.tax - LineTaxFields(p, 1).tax) as real) < 0.5 * |p.taxes| as real + 0.5;
    if p.taxes == [] { RoundsTo(0.0, 0); }
  }
}
