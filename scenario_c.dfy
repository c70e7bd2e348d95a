/** Scenario C: buy the more expensive new apartment with a mortgage for what the capital
    does not cover, keep paying the existing apartment's mortgage and take the bonus
    income for three years, then sell the existing apartment, put the proceeds against the
    new loan and re-amortise what is left over the remaining months. */
module ScenarioC {
  import opened Growth
  import opened Amortization
  import opened Parameters
  import opened Projection

  /** Scenario C's result: the common outcome plus the two payment levels and the months
      the reduced payment runs for. */
  datatype RefinancedOutcome = RefinancedOutcome(
    outcome: Outcome,
    paymentFull: real,
    paymentReduced: real,
    remainingMonths: nat)

  /** The new loan: scenario C's apartment price less the available capital. */
  function Loan(p: Params): real
  {
    p.apartmentPriceC - p.availableCapital
  }

  /** The level payment of the new loan over the whole horizon, paid until the sale. */
  function FullPayment(p: Params, r: MonthlyRates): real
    requires r.interest > 0.0 && Months(p) > ThreeYears
  {
    LevelPayment(Loan(p), r.interest, Months(p))
  }

  /** What is still owed on the new loan when the existing apartment is sold, after the
      first 36 level payments. */
  function OwedAtSale(p: Params, r: MonthlyRates): real
    requires r.interest > 0.0 && Months(p) > ThreeYears
  {
    RemainingPrincipal(Loan(p), r.interest, Months(p), ThreeYears)
  }

  /** What is owed once the sale proceeds are applied, never below zero: proceeds above
      the debt are not paid out. */
  function BalanceAfterSale(p: Params, r: MonthlyRates): real
    requires r.interest > 0.0 && Months(p) > ThreeYears
  {
    var b := OwedAtSale(p, r) - p.existingApartmentValue;
    if b > 0.0 then b else 0.0
  }

  /** The level payment that retires the balance after the sale over the months left. */
  function ReducedPayment(p: Params, r: MonthlyRates): real
    requires r.interest > 0.0 && Months(p) > ThreeYears
  {
    LevelPayment(BalanceAfterSale(p, r), r.interest, Months(p) - ThreeYears)
  }

  /** What month m costs: both mortgages before the sale, the reduced payment after. */
  function MonthPaid(p: Params, r: MonthlyRates, m: nat): real
    requires r.interest > 0.0 && Months(p) > ThreeYears
  {
    if m < ThreeYears then p.existingMortgageMonthly + FullPayment(p, r) else ReducedPayment(p, r)
  }

  /** The cash flow of month m: the bonus comes in before the sale, and no income after. */
  function MonthCashflow(p: Params, r: MonthlyRates, m: nat): real
    requires r.interest > 0.0 && Months(p) > ThreeYears
  {
    if m < ThreeYears then -p.existingMortgageMonthly - FullPayment(p, r) + p.bonusIncomeMonthly
    else -ReducedPayment(p, r)
  }

  /** Everything paid in the first n months. */
  function PaidWithin(p: Params, r: MonthlyRates, n: nat): real
    requires r.interest > 0.0 && Months(p) > ThreeYears
  {
    Repeat(p.existingMortgageMonthly + FullPayment(p, r), MonthsBefore(ThreeYears, n))
    + Repeat(ReducedPayment(p, r), MonthsFrom(ThreeYears, n))
  }

  /** One more month adds what that month costs. */
  lemma PaidStep(p: Params, r: MonthlyRates, m: nat)
    requires r.interest > 0.0 && Months(p) > ThreeYears
    ensures PaidWithin(p, r, m + 1) == PaidWithin(p, r, m) + MonthPaid(p, r, m)
  {
    MonthsStep(ThreeYears, m);
  }

  /** What the month loop records: one value and one cash-flow entry per month, the
      apartment's value grown month by month from its price, the full payment for the
      first 36 months and the reduced one after, and a net gain that credits three years
      of bonus. */
  predicate Projects(p: Params, r: MonthlyRates, out: RefinancedOutcome)
    requires r.interest > 0.0 && Months(p) > ThreeYears
  {
    var o := out.outcome;
    && |o.cashflow| == Months(p) && |o.valueHistory| == Months(p)
    && GrowthSeries(o.valueHistory, p.apartmentPriceC, r.appreciation)
    && o.finalAssets == o.valueHistory[Months(p) - 1]
    && (forall m :: 0 <= m < Months(p) ==> o.cashflow[m] == MonthCashflow(p, r, m))
    && o.totalPaid == PaidWithin(p, r, Months(p))
    && o.netGain == o.finalAssets + p.bonusIncomeMonthly * 36.0 - o.totalPaid
    && out.paymentFull == FullPayment(p, r)
    && out.paymentReduced == ReducedPayment(p, r)
    && out.remainingMonths == Months(p) - ThreeYears
  }

  /** The month loop of scenario C. The horizon must run past month 36, where the sale
      happens and the reduced payment is first computed. */
  method Simulate(p: Params, r: MonthlyRates) returns (out: RefinancedOutcome)
    requires r.interest > 0.0 && Months(p) > ThreeYears
    ensures Projects(p, r, out)
  {
    var mortgage := p.apartmentPriceC - p.availableCapital;
    var monthsTotal := Months(p);
    var paymentFull := LevelPayment(mortgage, r.interest, monthsTotal);
    var value := p.apartmentPriceC;
    var totalPaid := 0.0;
    var valueHistory: seq<real> := [];
    var cashflow: seq<real> := [];
    var paymentReduced := 0.0;
    var remainingMonths: nat := 0;

    for m := 0 to Months(p)
      invariant |cashflow| == m && |valueHistory| == m
      invariant value == Grown(p.apartmentPriceC, r.appreciation, m)
      invariant GrowthSeries(valueHistory, p.apartmentPriceC, r.appreciation)
      invariant forall k :: 0 <= k < m ==> cashflow[k] == MonthCashflow(p, r, k)
      invariant totalPaid == PaidWithin(p, r, m)
      invariant m > ThreeYears ==>
                  paymentReduced == ReducedPayment(p, r) && remainingMonths == monthsTotal - ThreeYears
    {
      PaidStep(p, r, m);
      value := value * (1.0 + r.appreciation);
      valueHistory := valueHistory + [value];

      if m < 36 {
        totalPaid := totalPaid + (p.existingMortgageMonthly + paymentFull);
        cashflow := cashflow + [-p.existingMortgageMonthly - paymentFull + p.bonusIncomeMonthly];
      } else if m == 36 {
        var remainingPrincipal := RemainingPrincipal(mortgage, r.interest, monthsTotal, m);
        var newBalance := remainingPrincipal - p.existingApartmentValue;
        newBalance := if newBalance > 0.0 then newBalance else 0.0;
        remainingMonths := monthsTotal - m;
        paymentReduced := LevelPayment(newBalance, r.interest, remainingMonths);
        totalPaid := totalPaid + paymentReduced;
        cashflow := cashflow + [-paymentReduced];
      } else {
        totalPaid := totalPaid + paymentReduced;
        cashflow := cashflow + [-paymentReduced];
      }
    }

    out := RefinancedOutcome(
      Outcome(totalPaid, value, value + p.bonusIncomeMonthly * 36.0 - totalPaid, cashflow, valueHistory),
      paymentFull,
      paymentReduced,
      remainingMonths);
  }

  /** The cash flow adds up to the bonus received less everything paid. */
  lemma {:induction false} CashflowSum(p: Params, r: MonthlyRates, cashflow: seq<real>)
    requires r.interest > 0.0 && Months(p) > ThreeYears
    requires forall m :: 0 <= m < |cashflow| ==> cashflow[m] == MonthCashflow(p, r, m)
    ensures Sum(cashflow)
            == Repeat(p.bonusIncomeMonthly, MonthsBefore(ThreeYears, |cashflow|)) - PaidWithin(p, r, |cashflow|)
  {
    if |cashflow| > 0 {
      var n := |cashflow| - 1;
      CashflowSum(p, r, cashflow[..n]);
      PaidStep(p, r, n);
      MonthsStep(ThreeYears, n);
    }
  }

  /** The net gain is exactly the final value plus the sum of the monthly cash flows: the
      three years of bonus it credits are the bonus entries of the cash flow. */
  lemma NetGainIsCashflowTotal(p: Params, r: MonthlyRates, out: RefinancedOutcome)
    requires r.interest > 0.0 && Months(p) > ThreeYears && Projects(p, r, out)
    ensures out.outcome.netGain == out.outcome.finalAssets + Sum(out.outcome.cashflow)
  {
    CashflowSum(p, r, out.outcome.cashflow);
    RepeatIsProduct(p.bonusIncomeMonthly, ThreeYears);
  }

  /** Everything paid is 36 months of both mortgages at the full payment, then the
      reduced payment for each remaining month. */
  lemma TotalPaid(p: Params, r: MonthlyRates, out: RefinancedOutcome)
    requires r.interest > 0.0 && Months(p) > ThreeYears && Projects(p, r, out)
    ensures out.outcome.totalPaid
            == 36.0 * (p.existingMortgageMonthly + out.paymentFull)
               + out.remainingMonths as real * out.paymentReduced
  {
    RepeatIsProduct(p.existingMortgageMonthly + FullPayment(p, r), ThreeYears);
    RepeatIsProduct(ReducedPayment(p, r), Months(p) - ThreeYears);
  }

  /** What is owed at the sale is what 36 full payments leave of the loan, month by
      month: the closed form used at the sale is the true balance. */
  lemma OwedAtSaleIsBalance(p: Params, r: MonthlyRates)
    requires r.interest > 0.0 && Months(p) > ThreeYears
    ensures OwedAtSale(p, r) == Balance(Loan(p), r.interest, FullPayment(p, r), ThreeYears)
  {
    BalanceIsRemaining(Loan(p), r.interest, Months(p), ThreeYears);
  }

  /** The balance after the sale is never negative, and it is zero exactly when the
      existing apartment is worth at least what is owed; otherwise it is the debt less
      the proceeds. */
  lemma SaleBalance(p: Params, r: MonthlyRates)
    requires r.interest > 0.0 && Months(p) > ThreeYears
    ensures BalanceAfterSale(p, r) >= 0.0
    ensures BalanceAfterSale(p, r) == 0.0 <==> p.existingApartmentValue >= OwedAtSale(p, r)
    ensures p.existingApartmentValue < OwedAtSale(p, r) ==>
              BalanceAfterSale(p, r) == OwedAtSale(p, r) - p.existingApartmentValue
  {
  }

  /** The reduced payment is never negative, and it is zero exactly when the sale
      proceeds cover the debt; then every month after the sale has a zero cash flow. */
  lemma SaleRetiresLoan(p: Params, r: MonthlyRates, out: RefinancedOutcome)
    requires r.interest > 0.0 && Months(p) > ThreeYears && Projects(p, r, out)
    ensures out.paymentReduced >= 0.0
    ensures out.paymentReduced == 0.0 <==> p.existingApartmentValue >= OwedAtSale(p, r)
    ensures p.existingApartmentValue >= OwedAtSale(p, r) ==>
              forall m :: ThreeYears <= m < Months(p) ==> out.outcome.cashflow[m] == 0.0
  {
    SaleBalance(p, r);
    LevelPaymentSign(BalanceAfterSale(p, r), r.interest, Months(p) - ThreeYears);
  }

  /** The reduced payment retires the balance after the sale in exactly the months left. */
  lemma ReducedLoanRetired(p: Params, r: MonthlyRates)
    requires r.interest > 0.0 && Months(p) > ThreeYears
    ensures Balance(BalanceAfterSale(p, r), r.interest, ReducedPayment(p, r), Months(p) - ThreeYears) == 0.0
  {
    FullyAmortises(BalanceAfterSale(p, r), r.interest, Months(p) - ThreeYears);
  }

  /** Selling the existing apartment never raises the payment: for a non-negative loan and
      sale value the reduced payment lies between zero and the full payment, and with no
      sale proceeds it equals the full payment. */
  lemma ReducedPaymentBounds(p: Params, r: MonthlyRates)
    requires r.interest > 0.0 && Months(p) > ThreeYears
    requires Loan(p) >= 0.0 && p.existingApartmentValue >= 0.0
    ensures 0.0 <= ReducedPayment(p, r) <= FullPayment(p, r)
    ensures p.existingApartmentValue == 0.0 ==> ReducedPayment(p, r) == FullPayment(p, r)
  {
    var i, n := r.interest, Months(p);
    RemainingBounds(Loan(p), i, n, ThreeYears);
    SaleBalance(p, r);
    assert BalanceAfterSale(p, r) <= OwedAtSale(p, r);
    LevelPaymentMonotone(BalanceAfterSale(p, r), OwedAtSale(p, r), i, n - ThreeYears);
    Reamortise(Loan(p), i, n, ThreeYears);
    LevelPaymentSign(BalanceAfterSale(p, r), i, n - ThreeYears);
  }

  /** The recorded values are the price compounded monthly, the last one is the final
      value, and with a non-negative price and appreciation they never go down. */
  lemma ValueHistory(p: Params, r: MonthlyRates, out: RefinancedOutcome)
    requires r.interest > 0.0 && Months(p) > ThreeYears && Projects(p, r, out)
    ensures Compounding(out.outcome.valueHistory, p.apartmentPriceC, r.appreciation)
    ensures out.outcome.finalAssets == Compounded(p.apartmentPriceC, r.appreciation, Months(p))
    ensures p.apartmentPriceC >= 0.0 && r.appreciation >= 0.0 ==>
              forall j, k :: 0 <= j <= k < Months(p) ==> out.outcome.valueHistory[j] <= out.outcome.valueHistory[k]
  {
    GrowthSeriesCompounds(out.outcome.valueHistory, p.apartmentPriceC, r.appreciation);
    if p.apartmentPriceC >= 0.0 && r.appreciation >= 0.0 {
      CompoundingNondecreasing(out.outcome.valueHistory, p.apartmentPriceC, r.appreciation);
    }
  }
}
