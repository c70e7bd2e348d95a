/** The tool's inputs and the set-up derived from them before any scenario runs: the
    horizon in months and the monthly-equivalent rates. */
module Parameters {
  import opened Growth

  /** Every input of the tool. Money amounts are in shekels, rates are fractions (4.5%
      is 0.045) and durations are whole years. `rentPerMonth`, `rentYears` and
      `inflationRateAnnual` are read but no scenario uses them. */
  datatype Params = Params(
    availableCapital: real,
    apartmentPrice: real,
    apartmentPriceC: real,
    existingApartmentValue: real,
    rentPerMonth: real,
    rentYears: nat,
    improvementMonthly: real,
    improvementYears: nat,
    existingMortgageMonthly: real,
    existingMortgageYears: nat,
    loanTermYears: nat,
    mortgageInterestAnnual: real,
    investmentReturnAnnual: real,
    appreciationRateAnnual: real,
    inflationRateAnnual: real,
    rentalIncomeMonthly: real,
    bonusIncomeMonthly: real,
    rentalIncomeTaxRate: real)

  /** The monthly-equivalent rates; how they relate to the annual ones is `RatesOf`. */
  datatype MonthlyRates = MonthlyRates(
    interest: real,
    investmentReturn: real,
    appreciation: real,
    inflation: real)

  /** Three years: the bonus income stops, the existing apartment starts being let
      (scenario A), and it is sold to pay down the new loan (scenario C). */
  const ThreeYears: nat := 36

  /** The projection horizon, the new loan's term in months. */
  function Months(p: Params): nat
  {
    p.loanTermYears * 12
  }

  /** The months during which the apartment improvement is paid for. */
  function ImprovementMonths(p: Params): nat
  {
    p.improvementYears * 12
  }

  /** The months during which the existing apartment's mortgage is still paid. */
  function ExistingMortgageMonths(p: Params): nat
  {
    p.existingMortgageYears * 12
  }

  /** The after-tax rent the existing apartment brings in each month once it is let. */
  function RentAfterTax(p: Params): real
  {
    p.rentalIncomeMonthly * (1.0 - p.rentalIncomeTaxRate)
  }

  /** Each monthly rate is the twelfth root of one plus its annual rate, minus one. */
  predicate RatesOf(p: Params, r: MonthlyRates)
  {
    && Compounds(p.mortgageInterestAnnual, r.interest)
    && Compounds(p.investmentReturnAnnual, r.investmentReturn)
    && Compounds(p.appreciationRateAnnual, r.appreciation)
    && Compounds(p.inflationRateAnnual, r.inflation)
  }

  /** The ranges the input form allows for the durations and rates. */
  predicate InFormRanges(p: Params)
  {
    && 1 <= p.rentYears <= 30
    && 1 <= p.improvementYears <= 10
    && 1 <= p.existingMortgageYears <= 30
    && 5 <= p.loanTermYears <= 40
    && 0.01 <= p.mortgageInterestAnnual <= 0.10
    && 0.01 <= p.investmentReturnAnnual <= 0.12
    && 0.0 <= p.appreciationRateAnnual <= 0.10
    && 0.0 <= p.inflationRateAnnual <= 0.05
    && 0.0 <= p.rentalIncomeTaxRate <= 0.50
  }

  /** Inputs in the form's ranges give every scenario what it silently relies on: a
      positive monthly interest rate (the payment formulas divide by zero otherwise), a
      horizon that runs past the three-year mark (scenario C's reduced payment is only
      set there), and growth rates that never shrink a value. */
  lemma FormRangesMeetScenarioNeeds(p: Params, r: MonthlyRates)
    requires InFormRanges(p) && RatesOf(p, r)
    ensures Months(p) > ThreeYears
    ensures r.interest > 0.0 && r.investmentReturn > 0.0
    ensures r.appreciation >= 0.0 && r.inflation >= 0.0
  {
    MonthlyRateSign(p.mortgageInterestAnnual, r.interest);
    MonthlyRateSign(p.investmentReturnAnnual, r.investmentReturn);
    MonthlyRateSign(p.appreciationRateAnnual, r.appreciation);
    MonthlyRateSign(p.inflationRateAnnual, r.inflation);
  }
}
