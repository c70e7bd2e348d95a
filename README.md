# Buy vs rent: a verified model of the projection engine

`buy_vs_rent_tool.py` is a small interactive tool. It compares three ways of using an
amount of capital over the term of a new mortgage:

- **Scenario A:** buy a new apartment and let the existing one from the fourth year on.
- **Scenario B:** keep the existing apartment and invest the capital.
- **Scenario C:** buy a more expensive new apartment, sell the existing one after three
  years and re-amortise the new loan with the proceeds.

Each scenario steps month by month through the horizon (the loan term in months). It
records one cash-flow entry and one value entry per month and returns three totals:
everything paid, the final asset value and the net gain. This project models the set-up
of the horizon and the monthly rates, the three month loops, and the two amortisation
formulas they use: the level payment and the closed-form remaining principal. It then
proves what these compute.

The modules follow that structure:

- `Growth` (growth.dfy): integer powers and month-by-month compounding.
- `Amortization` (amortization.dfy): the level-payment and remaining-principal formulas,
  and the month-by-month loan balance they are checked against.
- `Parameters` (parameters.dfy): the tool's inputs as one record, the horizon, the
  monthly rates, and the ranges the input form allows.
- `Projection` (projection.dfy): the outcome record and the series arithmetic (sums,
  repeated additions, month counts before and after a cut-off).
- `ScenarioA`, `ScenarioB`, `ScenarioC` (scenario_a.dfy, scenario_b.dfy,
  scenario_c.dfy): each loop is a `method` with the source's own variables.

Each scenario method is proved against a `Projects` predicate. The predicate states the
month-by-month meaning of every output: the value series as repeated growth, each cash-flow
entry as a function of the month, and the totals as repeated additions. Lemmas beside each
method turn these into closed forms (`k * c`, `start * (1 + rate)^k`) and relate the totals
to the cash-flow series.

Arithmetic is exact (`real`). The monthly rates are inputs to the model. The tool computes
them as `(1 + annual)^(1/12) - 1`; the predicate `Growth.Compounds` states the relation
instead: twelve months at the monthly rate give one year at the annual rate.

Where a description of the tool and its code disagree, the model follows the code. The
net gain of scenario A is sometimes described as counting the rent and bonus twice: once
in the cash flow and once on top. The code does not do that. Over any horizon of at least
three years, the net gain is exactly the final value plus the sum of the monthly cash flows
(`ScenarioA.NetGainIsCashflowTotal`). The same holds for scenario C.

Preconditions are those the code relies on without checking:

- The level-payment formula divides by zero when the monthly interest rate is zero, so
  scenarios A and C require a positive rate.
- Scenario A divides by zero with a zero horizon, so it requires at least one month.
- Scenario C only sets `payment_reduced` and `remaining_months` in month 36. With a shorter
  horizon it fails when it returns them, so it requires more than 36 months.
- Scenario B needs neither.
- `Parameters.FormRangesMeetScenarioNeeds` shows that every input the form allows meets
  all of these.

## Model

| member | source | states |
|---|---|---|
| Growth.GrownIsCompounded | buy_vs_rent_tool.py:106 | multiplying by `1 + rate` once per month for k months gives `start * (1 + rate)^k` |
| Growth.CompoundedMonotone | buy_vs_rent_tool.py:106 | a non-negative amount at a non-negative monthly rate never decreases over the months, and strictly increases when both are positive |
| Growth.CompoundedAtZeroRate | buy_vs_rent_tool.py:83 | with a zero rate (the appreciation slider allows 0%) the amount never changes |
| Growth.MonthlyRateSign | buy_vs_rent_tool.py:81-84 | the monthly-equivalent rate is positive exactly when the annual rate is, and zero exactly when it is |
| Parameters.FormRangesMeetScenarioNeeds | buy_vs_rent_tool.py:70-83 | every loan term and rate the form allows gives a horizon past month 36, a positive monthly interest and investment return, and non-negative appreciation and inflation |
| Amortization.LevelPaymentSign | buy_vs_rent_tool.py:98 | the level payment is zero exactly when the principal is; for a positive principal it exceeds the first month's interest, and for a negative principal it is negative |
| Amortization.LevelPaymentMonotone | buy_vs_rent_tool.py:98 | a larger principal never has a smaller level payment, at the same rate and term |
| Amortization.RemainingEndpoints | buy_vs_rent_tool.py:173 | the remaining principal is the whole loan before any payment and zero after the last |
| Amortization.RemainingBounds | buy_vs_rent_tool.py:173 | for a non-negative loan, what remains at any month of the term is between zero and the loan |
| Amortization.RemainingStep | buy_vs_rent_tool.py:173 | one more month turns what remains into that amount plus a month's interest less the level payment |
| Amortization.BalanceIsRemaining | buy_vs_rent_tool.py:157-173 | the closed-form remaining principal equals the balance left by charging interest and paying the level payment month by month |
| Amortization.FullyAmortises | buy_vs_rent_tool.py:98 | a loan paid at its level payment is fully repaid after exactly its term |
| Amortization.Reamortise | buy_vs_rent_tool.py:173-177 | re-amortising what remains after m months over the months left gives back the original level payment |
| Projection.RepeatIsProduct | buy_vs_rent_tool.py:108 | adding the same amount once per month for k months gives k times that amount |
| Projection.GrowthSeriesCompounds | buy_vs_rent_tool.py:106-107 | a series recorded after each month's growth holds the start compounded k + 1 months at entry k |
| Projection.CompoundingNondecreasing | buy_vs_rent_tool.py:106-107 | such a series never goes down for a non-negative start and rate |
| ScenarioA.Simulate | buy_vs_rent_tool.py:94-125 | one value and one cash-flow entry per month, the price grown monthly, both mortgages each month, bonus before month 36 and after-tax rent from month 36 (never both), the final value as the last entry, and the net gain from value, rent, 36 months of bonus and everything paid |
| ScenarioA.CashflowSum | buy_vs_rent_tool.py:105-117 | the cash flow adds up to the rent months times the after-tax rent, plus the bonus months times the bonus, less both mortgages over every month |
| ScenarioA.TotalPaid | buy_vs_rent_tool.py:108 | everything paid is the number of months times both mortgages; income never reduces it |
| ScenarioA.NetGain | buy_vs_rent_tool.py:111-113 | the net gain is the final value, plus `months - 36` months of after-tax rent, plus 36 months of bonus, less everything paid |
| ScenarioA.NetGainIsCashflowTotal | buy_vs_rent_tool.py:105-122 | over at least three years the net gain is exactly the final value plus the sum of the cash flows |
| ScenarioA.ValueHistory | buy_vs_rent_tool.py:106-107 | entry k is the price compounded k + 1 months, the final value is the price compounded over the horizon, and the series never falls for non-negative price and appreciation |
| ScenarioB.PaidStep | buy_vs_rent_tool.py:137-141 | each month adds its improvement cost and mortgage payment, less its bonus, each switched off at its own cut-off |
| ScenarioB.Simulate | buy_vs_rent_tool.py:128-150 | one value and one cash-flow entry per month, the capital grown monthly, each month's cash flow from the three cut-offs, the net amount paid, and a net gain of the investment less that amount with no other terms |
| ScenarioB.CashflowSum | buy_vs_rent_tool.py:137-142 | the cash flow adds up to exactly the negation of the net amount paid over the same months |
| ScenarioB.TotalPaidIsNegatedCashflow | buy_vs_rent_tool.py:141-147 | everything paid is the negated sum of the cash flow, and the net gain is the final investment plus that sum |
| ScenarioB.TotalPaid | buy_vs_rent_tool.py:137-141 | everything paid is the improvement months times the improvement cost, plus the mortgage months times the mortgage, less the bonus months times the bonus, counting only months within the horizon |
| ScenarioB.ValueHistory | buy_vs_rent_tool.py:135-136 | entry k is the capital compounded k + 1 months, the final investment is the capital compounded over the horizon and equals the last entry, and the series never falls for non-negative capital and return |
| ScenarioC.PaidStep | buy_vs_rent_tool.py:167-182 | each month adds both mortgages before month 36 and the reduced payment from month 36 on |
| ScenarioC.Simulate | buy_vs_rent_tool.py:152-194 | one value and one cash-flow entry per month, the full payment and bonus before the sale, the reduced payment from month 36 on, the full and reduced payments returned, `months - 36` remaining months, and the net gain from value, 36 months of bonus and everything paid |
| ScenarioC.CashflowSum | buy_vs_rent_tool.py:163-183 | the cash flow adds up to the bonus received less everything paid |
| ScenarioC.NetGainIsCashflowTotal | buy_vs_rent_tool.py:163-188 | the net gain is exactly the final value plus the sum of the cash flows |
| ScenarioC.TotalPaid | buy_vs_rent_tool.py:167-183 | everything paid is 36 months of both mortgages at the full payment plus the remaining months at the reduced payment |
| ScenarioC.OwedAtSaleIsBalance | buy_vs_rent_tool.py:172-173 | what is owed at the sale is the balance left by 36 full payments, month by month |
| ScenarioC.SaleBalance | buy_vs_rent_tool.py:174-175 | the balance after the sale is never negative, is zero exactly when the existing apartment covers the debt, and is otherwise the debt less the proceeds |
| ScenarioC.SaleRetiresLoan | buy_vs_rent_tool.py:174-183 | the reduced payment is never negative, is zero exactly when the sale covers the debt, and then every cash flow from month 36 on is zero |
| ScenarioC.ReducedLoanRetired | buy_vs_rent_tool.py:176-177 | the reduced payment repays the balance after the sale in exactly the months left |
| ScenarioC.ReducedPaymentBounds | buy_vs_rent_tool.py:157-177 | for a non-negative loan and sale value the reduced payment lies between zero and the full payment, and equals it when the sale brings nothing |
| ScenarioC.ValueHistory | buy_vs_rent_tool.py:164-165 | entry k is the price compounded k + 1 months, the final value is the price compounded over the horizon, and the series never falls for non-negative price and appreciation |

## Left out

- Page set-up and styling (buy_vs_rent_tool.py:13-45) and the summary panels (200-240) are presentation only. The input widgets (51-77) become the `Parameters.Params` record, and their ranges become `Parameters.InFormRanges`.
- The modification timestamp in the title (line 48) reads the file system.
- The calendar dates and chart ticks (86-90) and the charts (242-270) only feed the plotting library.
- The twelfth root at lines 81-84 is left out because exact reals have no roots. The monthly rates are inputs, tied to the annual rates by `Growth.Compounds`.
- Floating-point rounding is not modelled. All arithmetic is exact, so the proved equalities hold for the exact values, and the tool's results can differ from them by rounding.
- `rent_per_month`, `rent_years` and the inflation rate (lines 61-62, 74, 84) are inputs no scenario uses. The record carries them, and they affect nothing.
- Python's division-by-zero and unbound-variable failures are not modelled as error results. They occur only outside the preconditions stated above, which every form input meets.
- ScenarioA.NetGainIsCashflowTotal: stated only for horizons of at least 36 months. With a shorter horizon the net gain still credits 36 months of bonus while the cash flow holds fewer, and the form's minimum term is five years.
- Scenario A's `total_rental_income` is an internal accumulator the tool does not return. Its value, `months - 36` months of after-tax rent, is stated through the net gain in `ScenarioA.NetGain`.
- Scenario A charges the existing mortgage in every month of the horizon. The summary panel (line 207) labels it with the existing mortgage's own duration. The model keeps what the loop computes.
