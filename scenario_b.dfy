/** Scenario B: keep the existing apartment, invest the available capital, and pay the
    improvement costs and the existing mortgage while they last; the bonus income of the
    first three years offsets what is paid. */
module ScenarioB {
  import opened Growth
  import opened Parameters
  import opened Projection

  /** The improvement cost of month m: due only during the improvement years. */
  function Improve(p: Params, m: nat): real
  {
    if m < ImprovementMonths(p) then p.improvementMonthly else 0.0
  }

  /** The existing mortgage payment of month m: due only until that mortgage ends. */
  function MortgagePay(p: Params, m: nat): real
  {
    if m < ExistingMortgageMonths(p) then p.existingMortgageMonthly else 0.0
  }

  /** The bonus income of month m: received only during the first three years. */
  function BonusIncome(p: Params, m: nat): real
  {
    if m < ThreeYears then p.bonusIncomeMonthly else 0.0
  }

  /** The cash flow of month m: each cost and the bonus, each switched off once its
      cut-off month is reached. */
  function MonthCashflow(p: Params, m: nat): real
  {
    -Improve(p, m) - MortgagePay(p, m) + BonusIncome(p, m)
  }

  /** Everything paid in the first n months, net of the bonus received: each amount times
      the number of those months that fall before its cut-off. */
  function PaidWithin(p: Params, n: nat): real
  {
    Repeat(p.improvementMonthly, MonthsBefore(ImprovementMonths(p), n))
    + Repeat(p.existingMortgageMonthly, MonthsBefore(ExistingMortgageMonths(p), n))
    - Repeat(p.bonusIncomeMonthly, MonthsBefore(ThreeYears, n))
  }

  /** One more month adds that month's improvement cost and mortgage payment, less its
      bonus, to what has been paid. */
  lemma PaidStep(p: Params, m: nat)
    ensures PaidWithin(p, m + 1) == PaidWithin(p, m) + Improve(p, m) + MortgagePay(p, m) - BonusIncome(p, m)
  {
    MonthsStep(ImprovementMonths(p), m);
    MonthsStep(ExistingMortgageMonths(p), m);
    MonthsStep(ThreeYears, m);
  }

  /** What the month loop records: one value and one cash-flow entry per month, the
      investment grown month by month from the available capital, the net amount paid,
      and a net gain of the final investment less that amount. */
  predicate Projects(p: Params, r: MonthlyRates, out: Outcome)
  {
    && |out.cashflow| == Months(p) && |out.valueHistory| == Months(p)
    && GrowthSeries(out.valueHistory, p.availableCapital, r.investmentReturn)
    && out.finalAssets == Grown(p.availableCapital, r.investmentReturn, Months(p))
    && (forall m :: 0 <= m < Months(p) ==> out.cashflow[m] == MonthCashflow(p, m))
    && out.totalPaid == PaidWithin(p, Months(p))
    && out.netGain == out.finalAssets - out.totalPaid
  }

  /** The month loop of scenario B. It needs no precondition: with a zero horizon it
      records nothing and the investment stays at the capital. */
  method Simulate(p: Params, r: MonthlyRates) returns (out: Outcome)
    ensures Projects(p, r, out)
  {
    var investment := p.availableCapital;
    var totalPaid := 0.0;
    var cashflow: seq<real> := [];
    var valueHistory: seq<real> := [];

    for m := 0 to Months(p)
      invariant |cashflow| == m && |valueHistory| == m
      invariant investment == Grown(p.availableCapital, r.investmentReturn, m)
      invariant GrowthSeries(valueHistory, p.availableCapital, r.investmentReturn)
      invariant forall k :: 0 <= k < m ==> cashflow[k] == MonthCashflow(p, k)
      invariant totalPaid == PaidWithin(p, m)
    {
      PaidStep(p, m);
      investment := investment * (1.0 + r.investmentReturn);
      valueHistory := valueHistory + [investment];
      var improve := if m < p.improvementYears * 12 then p.improvementMonthly else 0.0;
      var mortgagePay := if m < p.existingMortgageYears * 12 then p.existingMortgageMonthly else 0.0;
      var bonusIncome := if m < 36 then p.bonusIncomeMonthly else 0.0;

      totalPaid := totalPaid + (improve + mortgagePay - bonusIncome);
      cashflow := cashflow + [-improve - mortgagePay + bonusIncome];
    }

    out := Outcome(totalPaid, investment, investment - totalPaid, cashflow, valueHistory);
  }

  /** The cash flow adds up to exactly the negation of what is paid: every cost and every
      bonus enters both, with opposite signs. */
  lemma {:induction false} CashflowSum(p: Params, cashflow: seq<real>)
    requires forall m :: 0 <= m < |cashflow| ==> cashflow[m] == MonthCashflow(p, m)
    ensures Sum(cashflow) == -PaidWithin(p, |cashflow|)
  {
    if |cashflow| > 0 {
      var n := |cashflow| - 1;
      CashflowSum(p, cashflow[..n]);
      PaidStep(p, n);
    }
  }

  /** Everything paid is the negated sum of the cash flow, and the net gain is the final
      investment plus that sum. */
  lemma TotalPaidIsNegatedCashflow(p: Params, r: MonthlyRates, out: Outcome)
    requires Projects(p, r, out)
    ensures out.totalPaid == -Sum(out.cashflow)
    ensures out.netGain == out.finalAssets + Sum(out.cashflow)
  {
    CashflowSum(p, out.cashflow);
  }

  /** In closed form: the improvement cost for the improvement months within the horizon,
      the existing mortgage for its remaining months within the horizon, less the bonus
      for the first three years within the horizon. */
  lemma TotalPaid(p: Params, r: MonthlyRates, out: Outcome)
    requires Projects(p, r, out)
    ensures out.totalPaid
            == MonthsBefore(ImprovementMonths(p), Months(p)) as real * p.improvementMonthly
               + MonthsBefore(ExistingMortgageMonths(p), Months(p)) as real * p.existingMortgageMonthly
               - MonthsBefore(ThreeYears, Months(p)) as real * p.bonusIncomeMonthly
  {
    RepeatIsProduct(p.improvementMonthly, MonthsBefore(ImprovementMonths(p), Months(p)));
    RepeatIsProduct(p.existingMortgageMonthly, MonthsBefore(ExistingMortgageMonths(p), Months(p)));
    RepeatIsProduct(p.bonusIncomeMonthly, MonthsBefore(ThreeYears, Months(p)));
  }

  /** The recorded values are the capital compounded monthly, the last one (if any) is
      the final investment, and with non-negative capital and return they never go
      down. */
  lemma ValueHistory(p: Params, r: MonthlyRates, out: Outcome)
    requires Projects(p, r, out)
    ensures Compounding(out.valueHistory, p.availableCapital, r.investmentReturn)
    ensures out.finalAssets == Compounded(p.availableCapital, r.investmentReturn, Months(p))
    ensures Months(p) >= 1 ==> out.finalAssets == out.valueHistory[Months(p) - 1]
    ensures p.availableCapital >= 0.0 && r.investmentReturn >= 0.0 ==>
              forall j, k :: 0 <= j <= k < Months(p) ==> out.valueHistory[j] <= out.valueHistory[k]
  {
    GrowthSeriesCompounds(out.valueHistory, p.availableCapital, r.investmentReturn);
    GrownIsCompounded(p.availableCapital, r.investmentReturn, Months(p));
    if p.availableCapital >= 0.0 && r.investmentReturn >= 0.0 {
      CompoundingNondecreasing(out.valueHistory, p.availableCapital, r.investmentReturn);
    }
  }
}
