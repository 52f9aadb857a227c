/**
 * The investment report that the dashboard renders: the JSON shape the
 * system prompt asks the model for, and the canned report of demo mode.
 */
module Report {

  datatype PropertySummary = PropertySummary(address: string, estimatedCurrentValue: int, currency: string)

  /** One point of the value projection: the calendar year and the value in whole dollars. */
  datatype YearValue = YearValue(year: int, value: int)

  datatype Prediction = Prediction(
    annualGrowthPct: real,
    projectionYears: int,
    projectedValues: seq<YearValue>,
    confidencePct: int)

  datatype Strategy = Strategy(bestStrategy: string, explanation: string, expectedRoiPct: real)

  datatype NegotiationTip = NegotiationTip(amountOffSuggestion: int, reason: string)

  datatype Comparable = Comparable(address: string, salePrice: int, daysOnMarket: int)

  /** An entry of `alternative_opportunities`; `kind` is the JSON field `type`. */
  datatype Opportunity = Opportunity(kind: string, address: string, estimatedRoiPct: real)

  datatype InvestmentReport = InvestmentReport(
    property: PropertySummary,
    prediction: Prediction,
    strategy: Strategy,
    negotiationTip: NegotiationTip,
    comparables: seq<Comparable>,
    alternativeOpportunities: seq<Opportunity>)

  /** The projected years run first, first + 1, ... without gaps. */
  predicate ConsecutiveYears(values: seq<YearValue>, first: int)
  {
    forall k :: 0 <= k < |values| ==> values[k].year == first + k
  }

  /**
   * The report invariant of the schema: one projected value per year of the
   * horizon, and no negative amount of money or count of days.
   */
  predicate WellFormed(r: InvestmentReport)
  {
    && |r.prediction.projectedValues| == r.prediction.projectionYears
    && r.property.estimatedCurrentValue >= 0
    && (forall k :: 0 <= k < |r.prediction.projectedValues| ==> r.prediction.projectedValues[k].value >= 0)
    && r.negotiationTip.amountOffSuggestion >= 0
    && (forall k :: 0 <= k < |r.comparables| ==> r.comparables[k].salePrice >= 0 && r.comparables[k].daysOnMarket >= 0)
  }

  /** The one address with a canned demo report. */
  const DemoAddress: string := "123 Main St, Los Angeles, CA"

  /** `DEMO_RESULTS["123 Main St, Los Angeles, CA"]`. */
  const CannedReport: InvestmentReport := InvestmentReport(
    PropertySummary(DemoAddress, 750000, "USD"),
    Prediction(4.5, 3, [YearValue(2025, 783750), YearValue(2026, 818900), YearValue(2027, 855120)], 78),
    Strategy("buy_hold", "Strong rental demand and steady appreciation in this zip code.", 8.1),
    NegotiationTip(20000, "Older roof and 45 days on market give negotiating leverage."),
    [Comparable("118 Elm St", 732000, 38), Comparable("234 Oak Ave", 769000, 22)],
    [Opportunity("duplex", "200 Maple St", 9.2)])

  /** `DEMO_RESULTS`: canned reports by exact address. */
  const DemoResults: map<string, InvestmentReport> := map[DemoAddress := CannedReport]

  /**
   * The canned report keeps the schema invariant: three projected values for
   * its three-year horizon, 2025 to 2027, rising, no negative amount.
   */
  lemma CannedReportWellFormed()
    ensures DemoResults.Keys == {DemoAddress}
    ensures WellFormed(DemoResults[DemoAddress])
    ensures ConsecutiveYears(DemoResults[DemoAddress].prediction.projectedValues, 2025)
    ensures var pv := DemoResults[DemoAddress].prediction.projectedValues;
      forall k :: 0 < k < |pv| ==> pv[k - 1].value < pv[k].value
  {
  }
}
