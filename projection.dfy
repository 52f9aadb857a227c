/**
 * The report that demo mode computes locally for an address without a canned
 * result: a base value, a year-by-year projection at a fixed 3.2% growth, and
 * a fixed-shape report around it. The source computes in floating point; the
 * model computes over exact reals and rounds as Python's `round` and `int` do.
 */
module Projection {
  import opened Report

  /** The base value used when neither an estimate nor a purchase price is given. */
  const FallbackBase: int := 300000

  /** `annual`: the fixed growth rate of demo mode, in percent per year. */
  const AnnualGrowthPct: real := 3.2

  /** `1 + annual / 100`: the yearly growth factor. */
  const GrowthFactor: real := 1.0 + AnnualGrowthPct / 100.0

  const DemoConfidencePct: int := 60
  const DemoStrategy: string := "buy_hold"
  const DemoExplanation: string := "Conservative recommendation based on generic market trends."
  const DemoRoiPct: real := 5.8
  const DemoTipReason: string := "Typical minor repairs & market friction."

  /**
   * The base value: the estimate if positive, else the purchase price if
   * positive, else the fallback; so it is positive whatever the inputs.
   */
  function SelectBase(estimatedValue: int, purchasePrice: int): (base: int)
    ensures base > 0
    ensures estimatedValue > 0 ==> base == estimatedValue
    ensures estimatedValue <= 0 && purchasePrice > 0 ==> base == purchasePrice
    ensures estimatedValue <= 0 && purchasePrice <= 0 ==> base == FallbackBase
  {
    if estimatedValue > 0 then estimatedValue
    else if purchasePrice > 0 then purchasePrice
    else FallbackBase
  }

  /** `x ** n` for a natural exponent. */
  function Power(x: real, n: nat): real
  {
    if n == 0 then 1.0 else x * Power(x, n - 1)
  }

  /** `base * (1 + annual/100) ** i`, before rounding. */
  function Grown(base: int, i: nat): real
  {
    base as real * Power(GrowthFactor, i)
  }

  /**
   * Python's `round(x)` on a number: the nearest integer, and the even one of
   * the two when x lies exactly half-way between them.
   */
  function RoundHalfEven(x: real): (r: int)
    ensures x - 0.5 <= r as real <= x + 0.5
    ensures (r as real - x == 0.5 || x - r as real == 0.5) ==> r % 2 == 0
  {
    var f := x.Floor;
    var d := x - f as real;
    if d < 0.5 then f
    else if d > 0.5 then f + 1
    else if f % 2 == 0 then f
    else f + 1
  }

  /** Python's `int(x)` on a number: truncation toward zero. */
  function Truncate(x: real): (r: int)
    ensures x >= 0.0 ==> r as real <= x < r as real + 1.0
    ensures x < 0.0 ==> r as real - 1.0 < x <= r as real
  {
    if x >= 0.0 then x.Floor else -((-x).Floor)
  }

  /** The entry for the i-th year of the horizon (i counts from 1). */
  function ProjectedEntry(base: int, currentYear: int, i: nat): YearValue
  {
    YearValue(currentYear + i, RoundHalfEven(Grown(base, i)))
  }

  /** The `projected` list for a horizon: one entry for each i in `range(1, years + 1)`. */
  function ProjectedValues(base: int, years: int, currentYear: int): seq<YearValue>
  {
    seq(if years > 0 then years else 0, k requires k >= 0 => ProjectedEntry(base, currentYear, k + 1))
  }

  /** The projection loop: append the entry of year i for i = 1 .. years. */
  method BuildProjection(base: int, years: int, currentYear: int) returns (projected: seq<YearValue>)
    ensures projected == ProjectedValues(base, years, currentYear)
  {
    projected := [];
    var i := 1;
    while i <= years
      invariant 1 <= i && (years > 0 ==> i <= years + 1) && (years <= 0 ==> i == 1)
      invariant projected == ProjectedValues(base, i - 1, currentYear)
    {
      var value := RoundHalfEven(base as real * Power(GrowthFactor, i));
      ProjectionExtend(base, i, currentYear);
      projected := projected + [YearValue(currentYear + i, value)];
      i := i + 1;
    }
  }

  /** One more year of horizon appends that year's entry. */
  lemma ProjectionExtend(base: int, i: nat, currentYear: int)
    requires i >= 1
    ensures ProjectedValues(base, i, currentYear) == ProjectedValues(base, i - 1, currentYear) + [ProjectedEntry(base, currentYear, i)]
  {
  }

  /** The fields of the locally generated report, as the demo branch fills them. */
  predicate IsDemoReport(r: InvestmentReport, address: string, estimatedValue: int, purchasePrice: int,
                         years: int, currentYear: int)
  {
    var base := SelectBase(estimatedValue, purchasePrice);
    && r.property == PropertySummary(address, base, "USD")
    && r.prediction == Prediction(AnnualGrowthPct, years, ProjectedValues(base, years, currentYear), DemoConfidencePct)
    && r.strategy == Strategy(DemoStrategy, DemoExplanation, DemoRoiPct)
    && r.negotiationTip == NegotiationTip(Truncate(base as real * 0.03), DemoTipReason)
    && r.comparables == []
    && r.alternativeOpportunities == []
  }

  /** The demo branch for an address without a canned report. */
  method GenerateDemoReport(address: string, estimatedValue: int, purchasePrice: int, years: int, currentYear: int)
    returns (r: InvestmentReport)
    ensures IsDemoReport(r, address, estimatedValue, purchasePrice, years, currentYear)
  {
    var base := SelectBase(estimatedValue, purchasePrice);
    var projected := BuildProjection(base, years, currentYear);
    r := InvestmentReport(
      PropertySummary(address, base, "USD"),
      Prediction(AnnualGrowthPct, years, projected, DemoConfidencePct),
      Strategy(DemoStrategy, DemoExplanation, DemoRoiPct),
      NegotiationTip(Truncate(base as real * 0.03), DemoTipReason),
      [],
      []);
  }

  /** The projection has one entry per year of the horizon, for the years after currentYear in order. */
  lemma ProjectionShape(base: int, years: int, currentYear: int)
    requires years >= 0
    ensures |ProjectedValues(base, years, currentYear)| == years
    ensures ConsecutiveYears(ProjectedValues(base, years, currentYear), currentYear + 1)
    ensures years > 0 ==> (ProjectedValues(base, years, currentYear)[0].year == currentYear + 1
                           && ProjectedValues(base, years, currentYear)[years - 1].year == currentYear + years)
  {
  }

  lemma MulNonNegative(a: real, b: real)
    requires a >= 0.0 && b >= 0.0
    ensures a * b >= 0.0
  {
  }

  /** Powers of a factor of at least one are at least one and grow with the exponent. */
  lemma {:induction false} PowerMonotone(x: real, i: nat, j: nat)
    requires x >= 1.0 && i <= j
    ensures 1.0 <= Power(x, i) <= Power(x, j)
    decreases j
  {
    if j > 0 {
      if i == j {
        PowerMonotone(x, i - 1, j - 1);
      } else {
        PowerMonotone(x, i, j - 1);
      }
      var p := Power(x, j - 1);
      assert Power(x, j) == x * p;
      MulNonNegative(x - 1.0, p);
      assert x * p == p + (x - 1.0) * p;
    }
  }

  /** Each year adds 3.2% of the previous year's unrounded value, which is at least 3.2% of the base. */
  lemma GrownStep(base: int, i: nat)
    requires base >= 0
    ensures Grown(base, i + 1) - Grown(base, i) >= base as real * (GrowthFactor - 1.0)
  {
    var p := Power(GrowthFactor, i);
    PowerMonotone(GrowthFactor, 0, i);
    assert Grown(base, i + 1) == base as real * (GrowthFactor * p);
    assert Grown(base, i + 1) - Grown(base, i) == base as real * p * (GrowthFactor - 1.0);
    MulNonNegative(base as real, p - 1.0);
    assert base as real * p == base as real + base as real * (p - 1.0);
  }

  /** With a non-negative base the unrounded values do not decrease over the horizon. */
  lemma {:induction false} GrownMonotone(base: int, i: nat, j: nat)
    requires base >= 0 && i <= j
    ensures base as real <= Grown(base, i) <= Grown(base, j)
    decreases j
  {
    if i == 0 && j == 0 {
    } else if i == j {
      GrownMonotone(base, i - 1, j - 1);
      GrownStep(base, i - 1);
    } else {
      GrownMonotone(base, i, j - 1);
      GrownStep(base, j - 1);
    }
  }

  /** With a positive base the unrounded values rise strictly from year to year. */
  lemma {:induction false} GrownStrictlyIncreasing(base: int, i: nat, j: nat)
    requires base > 0 && i < j
    ensures Grown(base, i) < Grown(base, j)
    decreases j
  {
    GrownStep(base, j - 1);
    if i < j - 1 {
      GrownStrictlyIncreasing(base, i, j - 1);
    }
  }

  /** Rounding half to even does not reverse the order of two numbers. */
  lemma RoundMonotone(x: real, y: real)
    requires x <= y
    ensures RoundHalfEven(x) <= RoundHalfEven(y)
  {
  }

  /** Rounding leaves whole numbers unchanged. */
  lemma RoundWhole(n: int)
    ensures RoundHalfEven(n as real) == n
  {
  }

  /**
   * With a non-negative base each projected value is at least the base, and
   * the values never decrease along the horizon.
   */
  lemma ProjectionNonDecreasing(base: int, years: int, currentYear: int)
    requires base >= 0
    ensures var p := ProjectedValues(base, years, currentYear);
      forall k, m :: 0 <= k <= m < |p| ==> base <= p[k].value <= p[m].value
  {
    var p := ProjectedValues(base, years, currentYear);
    forall k, m | 0 <= k <= m < |p| ensures base <= p[k].value <= p[m].value {
      GrownMonotone(base, k + 1, m + 1);
      RoundWhole(base);
      RoundMonotone(base as real, Grown(base, k + 1));
      RoundMonotone(Grown(base, k + 1), Grown(base, m + 1));
    }
  }

  /**
   * From a base of 32 on, 3.2% growth adds more than one dollar a year, so the
   * rounded values rise strictly; below that, rounding can repeat a value.
   */
  lemma ProjectionStrictlyIncreasing(base: int, years: int, currentYear: int)
    requires base >= 32
    ensures var p := ProjectedValues(base, years, currentYear);
      forall k :: 0 < k < |p| ==> p[k - 1].value < p[k].value
  {
    var p := ProjectedValues(base, years, currentYear);
    forall k | 0 < k < |p| ensures p[k - 1].value < p[k].value {
      GrownStep(base, k);
      assert Grown(base, k + 1) - Grown(base, k) > 1.0;
    }
  }

  /** The suggested discount `int(base * 0.03)` is 3% of the base rounded down, and never more than the base. */
  lemma TipAmount(base: int)
    requires base >= 0
    ensures Truncate(base as real * 0.03) == (3 * base) / 100
    ensures 0 <= Truncate(base as real * 0.03) <= base
  {
    var q := (3 * base) / 100;
    var t := Truncate(base as real * 0.03);
    assert q * 100 <= 3 * base < q * 100 + 100;
    assert (q as real) <= base as real * 0.03 < q as real + 1.0;
  }

  /**
   * The generated report echoes its inputs and fixed fields: the base as the
   * estimated value, the requested horizon, 3.2% growth, 60% confidence,
   * buy-and-hold at 5.8% ROI, 3% of the base off, and no comparables or
   * alternatives.
   */
  lemma DemoReportFields(r: InvestmentReport, address: string, estimatedValue: int, purchasePrice: int,
                         years: int, currentYear: int)
    requires IsDemoReport(r, address, estimatedValue, purchasePrice, years, currentYear)
    ensures r.property.address == address && r.property.currency == "USD"
    ensures r.property.estimatedCurrentValue == SelectBase(estimatedValue, purchasePrice)
    ensures r.prediction.projectionYears == years
    ensures r.prediction.annualGrowthPct == 3.2 && r.prediction.confidencePct == 60
    ensures r.strategy.bestStrategy == "buy_hold" && r.strategy.expectedRoiPct == 5.8
    ensures r.negotiationTip.amountOffSuggestion == (3 * SelectBase(estimatedValue, purchasePrice)) / 100
    ensures r.comparables == [] && r.alternativeOpportunities == []
  {
    TipAmount(SelectBase(estimatedValue, purchasePrice));
  }

  /**
   * For any horizon the form allows (non-negative), the generated report keeps
   * the schema invariant, numbers its years from currentYear + 1, and its
   * values start at the base or above and never decrease.
   */
  lemma DemoReportWellFormed(r: InvestmentReport, address: string, estimatedValue: int, purchasePrice: int,
                             years: int, currentYear: int)
    requires IsDemoReport(r, address, estimatedValue, purchasePrice, years, currentYear)
    requires years >= 0
    ensures WellFormed(r)
    ensures ConsecutiveYears(r.prediction.projectedValues, currentYear + 1)
    ensures var p := r.prediction.projectedValues;
      forall k, m :: 0 <= k <= m < |p| ==> r.property.estimatedCurrentValue <= p[k].value <= p[m].value
  {
    var base := SelectBase(estimatedValue, purchasePrice);
    ProjectionShape(base, years, currentYear);
    ProjectionNonDecreasing(base, years, currentYear);
    TipAmount(base);
  }
}
