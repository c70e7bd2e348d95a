/** Scenario A: buy the new apartment with a mortgage for what the capital does not
    cover, keep paying the existing apartment's mortgage, take the bonus income for the
    first three years and let the existing apartment from then on. */
module ScenarioA {
  import opened Growth
  import opened Amortization
  import opened Parameters
  import opened Projection

  /** The new loan: the apartment's price less the available capital. */
  function Loan(p: Params): real
  {
    p.apartmentPrice - p.availableCapital
  }

  /** The new loan's level monthly payment over the whole horizon. */
  function Payment(p: Params, r: MonthlyRates): real
    requires r.interest > 0.0 && Months(p) >= 1
  {
    LevelPayment(Loan(p), r.interest, Months(p))
  }

  /** The cash flow of month m: both mortgages go out, and either the bonus (first three
      years) or the after-tax rent (from then on) comes in, never both. */
  function MonthCashflow(p: Params, payment: real, m: nat): real
  {
    -p.existingMortgageMonthly - payment
    + (if m < ThreeYears then p.bonusIncomeMonthly else RentAfterTax(p))
  }

  /** What the month loop records, month by month: one value and one cash-flow entry per
      month, the apartment's value grown month by month from its price, both mortgages
      paid every month, rent received from month 36 on, and a net gain that credits
      three years of bonus. */
  predicate Projects(p: Params, r: MonthlyRates, out: Outcome)
    requires r.interest > 0.0 && Months(p) >= 1
  {
    && |out.cashflow| == Months(p) && |out.valueHistory| == Months(p)
    && GrowthSeries(out.valueHistory, p.apartmentPrice, r.appreciation)
    && out.finalAssets == out.valueHistory[Months(p) - 1]
    && (forall m :: 0 <= m < Months(p) ==> out.cashflow[m] == MonthCashflow(p, Payment(p, r), m))
    && out.totalPaid == Repeat(p.existingMortgageMonthly + Payment(p, r), Months(p))
    && out.netGain
       == out.finalAssets + Repeat(RentAfterTax(p), MonthsFrom(ThreeYears, Months(p)))
          + p.bonusIncomeMonthly * 36.0 - out.totalPaid
  }

  /** The month loop of scenario A. */
  method Simulate(p: Params, r: MonthlyRates) returns (out: Outcome)
    requires r.interest > 0.0 && Months(p) >= 1
    ensures Projects(p, r, out)
  {
    var mortgage := p.apartmentPrice - p.availableCapital;
    var months := Months(p);
    var payment := LevelPayment(mortgage, r.interest, months);
    var value := p.apartmentPrice;
    var totalRentalIncome := 0.0;
    var cashflow: seq<real> := [];
    var totalPaid := 0.0;
    var valueHistory: seq<real> := [];

    for m := 0 to months
      invariant |cashflow| == m && |valueHistory| == m
      invariant value == Grown(p.apartmentPrice, r.appreciation, m)
      invariant GrowthSeries(valueHistory, p.apartmentPrice, r.appreciation)
      invariant forall k :: 0 <= k < m ==> cashflow[k] == MonthCashflow(p, payment, k)
      invariant totalPaid == Repeat(p.existingMortgageMonthly + payment, m)
      invariant totalRentalIncome == Repeat(RentAfterTax(p), MonthsFrom(ThreeYears, m))
    {
      MonthsStep(ThreeYears, m);
      value := value * (1.0 + r.appreciation);
      valueHistory := valueHistory + [value];
      totalPaid := totalPaid + (p.existingMortgageMonthly + payment);
      cashflow := cashflow + [-p.existingMortgageMonthly - payment];

      if m >= ThreeYears {
        var rentIncome := RentAfterTax(p);
        totalRentalIncome := totalRentalIncome + rentIncome;
        cashflow := cashflow[|cashflow| - 1 := cashflow[|cashflow| - 1] + rentIncome];
      }

      if m < ThreeYears {
        cashflow := cashflow[|cashflow| - 1 := cashflow[|cashflow| - 1] + p.bonusIncomeMonthly];
      }
    }

    out := Outcome(
      totalPaid,
      value,
      value + totalRentalIncome + p.bonusIncomeMonthly * 36.0 - totalPaid,
      cashflow,
      valueHistory);
  }

  /** The cash flow adds up to the rent and bonus received less everything paid. */
  lemma {:induction false} CashflowSum(p: Params, payment: real, cashflow: seq<real>)
    requires forall m :: 0 <= m < |cashflow| ==> cashflow[m] == MonthCashflow(p, payment, m)
    ensures Sum(cashflow)
            == Repeat(RentAfterTax(p), MonthsFrom(ThreeYears, |cashflow|))
               + Repeat(p.bonusIncomeMonthly, MonthsBefore(ThreeYears, |cashflow|))
               - Repeat(p.existingMortgageMonthly + payment, |cashflow|)
  {
    if |cashflow| > 0 {
      var n := |cashflow| - 1;
      CashflowSum(p, payment, cashflow[..n]);
      MonthsStep(ThreeYears, n);
    }
  }

  /** Everything paid is both mortgages in every month of the horizon; income never
      reduces it. */
  lemma TotalPaid(p: Params, r: MonthlyRates, out: Outcome)
    requires r.interest > 0.0 && Months(p) >= 1 && Projects(p, r, out)
    ensures out.totalPaid == Months(p) as real * (p.existingMortgageMonthly + Payment(p, r))
  {
    RepeatIsProduct(p.existingMortgageMonthly + Payment(p, r), Months(p));
  }

  /** The net gain is the final value plus the rent of every month from month 36 on plus
      three years of bonus, less everything paid. */
  lemma NetGain(p: Params, r: MonthlyRates, out: Outcome)
    requires r.interest > 0.0 && Months(p) >= 1 && Projects(p, r, out)
    ensures out.netGain
            == out.finalAssets + MonthsFrom(ThreeYears, Months(p)) as real * RentAfterTax(p)
               + p.bonusIncomeMonthly * 36.0 - out.totalPaid
  {
    RepeatIsProduct(RentAfterTax(p), MonthsFrom(ThreeYears, Months(p)));
  }

  /** Over a horizon of at least three years the net gain is exactly the final value
      plus the sum of the monthly cash flows: every bonus and rent payment counted in the
      cash flow is counted once in the net gain, and so is every mortgage payment. */
  lemma NetGainIsCashflowTotal(p: Params, r: MonthlyRates, out: Outcome)
    requires r.interest > 0.0 && Months(p) >= ThreeYears && Projects(p, r, out)
    ensures out.netGain == out.finalAssets + Sum(out.cashflow)
  {
    CashflowSum(p, Payment(p, r), out.cashflow);
    RepeatIsProduct(p.bonusIncomeMonthly, 36);
  }

  /** The recorded values are the price compounded monthly, the last one is the final
      value, and with a non-negative price and appreciation they never go down. */
  lemma ValueHistory(p: Params, r: MonthlyRates, out: Outcome)
    requires r.interest > 0.0 && Months(p) >= 1 && Projects(p, r, out)
    ensures Compounding(out.valueHistory, p.apartmentPrice, r.appreciation)
    ensures out.finalAssets == Compounded(p.apartmentPrice, r.appreciation, Months(p))
    ensures p.apartmentPrice >= 0.0 && r.appreciation >= 0.0 ==>
              forall j, k :: 0 <= j <= k < Months(p) ==> out.valueHistory[j] <= out.valueHistory[k]
  {
    GrowthSeriesCompounds(out.valueHistory, p.apartmentPrice, r.appreciation);
    if p.apartmentPrice >= 0.0 && r.appreciation >= 0.0 {
      CompoundingNondecreasing(out.valueHistory, p.apartmentPrice, r.appreciation);
    }
  }
}
