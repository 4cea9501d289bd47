# Coliving financial projection — a verified Dafny model

This project models the financial core of a coliving property simulator. The
simulator is a deterministic projection. It prices each room type per season
with a blended nightly rate. It turns the rooms, seasons and occupancies into
annual revenue. It builds a constant-annuity loan schedule. It projects three
scenarios (base, optimistic, pessimistic) year by year: EBITDA growth, debt
service, floored taxable income, CFADS, the equity cash flow (FCFE) with the
exit sale in the horizon year, and the DSCR. Each scenario ends with the
internal rate of return of its equity cash flows, found by bisection. A
recursive dictionary merge lays the values read from a workbook over the
default configuration.

Every amount is an exact `real`. Integer powers `(1+r)^k` are defined by
recursion (`Numeric.Pow`), and `(1+r)^-n` is written `1 / Pow(1+r, n)`.

The modules are:

- `Numeric`: `Option`, `Max`, `Min`, `Abs` and `Pow` with its lemmas.
- `Pricing`: `SeasonPricing.equivalent_nightly_rate`, a pure function.
- `Revenue`: `simulate_annual_revenue`. A method with nested loops, proved against the functions `PerSeason` and `TotalRevenue`.
- `Amortization`: `build_amortization_schedule`. A method with a year loop, proved against the function `Schedule`.
- `Irr`: `compute_irr`. A method with a bisection loop, proved against the recursive function `Bisect`.
- `Config`: `deep_update`. A recursive method, proved against the function `Merged`.
- `Projection`: the scenario loop of `main`, lifted into methods whose parameters are the sidebar values: `RunScenarios`, `ProjectScenario`, `BuildSeasons` and `ProjectYears`.
- `WorkedExample`: the command-line script's high winter season with its four room types, and two small IRR cases, evaluated on the model.

The four source files repeat the rate and revenue functions as identical
copies. The model defines each once and cites every copy it covers.

## Model

| member | source | states |
|---|---|---|
| Pricing.EquivalentNightlyRate | app_coliving_simulation_full_wconfig.py:41-53 | A total share <= 0 gives a rate of 0. |
| Pricing.RateIsWeightedMean | app_coliving_simulation_full_wconfig.py:45-53 | For a positive total share the rate is the weighted sum of night price, week price / 7 and month price / 30, divided by the total share. The three normalised weights sum to 1. |
| Pricing.ZeroWeeklyPriceKeepsItsWeight | app_coliving_simulation.py:52 | A zero weekly price adds nothing to the rate, but its share still counts in the normalisation. |
| Pricing.ZeroMonthlyPriceKeepsItsWeight | app_coliving_simulation.py:53 | The same for a zero monthly price. |
| Pricing.ScalingSharesKeepsRate | app_coliving_simulation_full_wconfig.py:45-47 | Multiplying the three shares by one positive constant leaves the rate unchanged. |
| Pricing.ScalingPricesScalesRate | app_coliving_simulation_full_wconfig.py:49-53 | Multiplying the three prices by a factor multiplies the rate by that factor, zero-price branches included. |
| Pricing.RateBetweenZeroAndLargestTenor | app_coliving_simulation.py:47-55 | With non-negative prices and shares, 0 <= rate <= max(night price, week price / 7, month price / 30). |
| Revenue.SimulateAnnualRevenue | app_coliving_simulation_full_wconfig.py:68-107 | The season loop and the room-type loop build exactly the per-season dictionary `PerSeason` and the annual total `TotalRevenue`. |
| Revenue.BreakdownEntry | app_coliving_simulation_full_wconfig.py:82-97 | A room type has a breakdown entry iff it is in the inventory and the season prices it. The entry has room-nights = count * days, occupancy read as 0 when missing, occupied = room-nights * occupancy, and revenue = occupied * blended rate. |
| Revenue.BreakdownFind | app_coliving_simulation.py:83-101 | The breakdown entry found under a name is the line of the inventory's room type of that name, or none when the season does not price it. |
| Revenue.BreakdownOnlyPriced | app_coliving_simulation.py:84-89 | Every breakdown entry is a priced room type, and there are no more entries than room types. |
| Revenue.SeasonRevenueIsPricedSum | app_coliving_simulation.py:90-102 | A season's revenue equals an independent sum of count * days * occupancy * rate over its priced room types. |
| Revenue.PutFind | coliving_simul.py:105-108 | Storing a season entry by name keeps the names distinct and makes the stored entry the one found. An existing name is replaced at its own position (`entries[k := e]`); a new name is appended at the end (`entries + [e]`). |
| Revenue.PerSeasonInOrder | app_coliving_simulation_full_wconfig.py:77-104 | With distinct season names, the per-season dictionary has one entry per season, and entry i is season i's result: insertion order is the list order. |
| Revenue.PerSeasonKeepsLastSeason | app_coliving_simulation_full_wconfig.py:101-104 | The per-season dictionary has distinct names. The entry of a name is the result of the last season in the list with that name. |
| Revenue.TotalRevenueOfConcat | app_coliving_simulation_full_wconfig.py:105 | The annual total is additive over the season list, repeated names included. |
| Revenue.DuplicateSeasonName | app_coliving_simulation_full_wconfig.py:99-105 | Two seasons with the same name leave one dictionary entry (the second), while the total counts both. |
| Amortization.BuildAmortizationSchedule | app_coliving_simulation_full_wconfig.py:135-164 | The year loop builds exactly the rows of `Schedule`: the guard, the payment chosen by the zero-rate test, and the floored balance carried from row to row. |
| Amortization.ScheduleShape | app_coliving_simulation_full_wconfig.py:140-163 | The schedule is empty iff debt <= 0, rate < 0 or years <= 0. Otherwise it has exactly `years` rows numbered 1..years with one common payment. Each row's interest is the incoming balance * rate, its principal is payment - interest, and its remaining balance is max(0, balance - principal). |
| Amortization.RowsShape | app_coliving_simulation_full_wconfig.py:153-163 | Any run of `count` rows has that many rows, consecutive years, one payment, and each row follows from the balance before it. |
| Amortization.ZeroRateIsStraightLine | app_coliving_simulation_full_wconfig.py:145-156 | At a zero rate every row pays debt / years and no interest. |
| Amortization.PaymentCoversInterest | app_coliving_simulation_full_wconfig.py:145-148 | The annual payment is at least the first year's interest, debt * rate. |
| Amortization.RowsNonIncreasing | app_coliving_simulation_full_wconfig.py:153-156 | While the payment covers the interest on a bound of the balance, every row repays a non-negative principal and the balance never rises. |
| Amortization.ScheduleBalanceNonIncreasing | app_coliving_simulation_full_wconfig.py:153-163 | Every row's principal is >= 0, and its remaining balance lies between 0 and the balance before it, hence at most the debt. |
| Amortization.AnnuityPaymentForm | app_coliving_simulation_full_wconfig.py:147-148 | For a positive rate, (1+r)^n > 1 and the payment a satisfies a * ((1+r)^n - 1) == debt * r * (1+r)^n, the closed annuity form. |
| Amortization.AnnuityRowsRepay | app_coliving_simulation_full_wconfig.py:148-163 | From year k of an annuity, with the balance in its closed form, the remaining rows end at balance 0 and repay exactly that balance as principal. |
| Amortization.StraightLineRowsRepay | app_coliving_simulation_full_wconfig.py:145-163 | The same for the zero-rate schedule. |
| Amortization.StraightLineRepaysDebt | app_coliving_simulation_full_wconfig.py:145-146 | A zero-rate loan is repaid exactly by its `years` equal payments. |
| Amortization.AnnuityRepaysDebt | app_coliving_simulation_full_wconfig.py:147-148 | A positive-rate annuity is repaid exactly by its `years` payments. |
| Amortization.ScheduleRepaysDebt | app_coliving_simulation_full_wconfig.py:140-163 | Whenever a schedule is built, its last row leaves a balance of exactly 0 and its principals sum to the debt (in exact arithmetic). |
| Irr.Bisect | app_coliving_simulation_full_wconfig.py:122-132 | Bisection from [low, high] returns a midpoint strictly inside the last bracket, itself inside [low, high]. When it reports convergence, the midpoint's NPV is within `tol` of 0. When it does not, either that NPV is at least `tol` or it was the last step. |
| Irr.ComputeIrr | app_coliving_simulation_full_wconfig.py:114-132 | None iff every flow is >= 0 or every flow is <= 0 (the empty list included). Otherwise the result lies strictly between -0.9 and 1.0 and is the midpoint `Bisect` reaches within `max_iter` steps. |
| Irr.BisectKeepsBracket | app_coliving_simulation_full_wconfig.py:128-131 | A lower end that has moved has a positive NPV. An upper end that has moved has a non-positive NPV. |
| Irr.BisectHalvesBracket | app_coliving_simulation_full_wconfig.py:123-131 | A run that did not converge halved the bracket once per step but the last. |
| Irr.HalvedTimesPower | app_coliving_simulation_full_wconfig.py:124 | A width halved n times, times 2^n, is the width again. |
| Irr.IrrOutcome | app_coliving_simulation_full_wconfig.py:119-132 | For flows with a sign change, the rate returned keeps 1 + rate > 0.1, so every NPV division is defined. Either its NPV is within `tol` of 0, or the final bracket has width 1.9 / 2^(max_iter-1) with ends of opposite NPV sign wherever they moved. |
| Irr.NpvAtZeroRate | app_coliving_simulation_full_wconfig.py:125 | At a zero rate the NPV is the plain sum of the flows. |
| Irr.NoRateWithoutOutlay | app_coliving_simulation_full_wconfig.py:119-120 | Flows without a negative entry, and the empty list, give None. |
| Irr.OutlayThenReturnHasRate | app_coliving_simulation_full_wconfig.py:119-127 | An outlay followed by a return always gives a rate. |
| Config.DeepUpdate | app_coliving_simulation_full_wconfig.py:433-439 | The key loop, with its recursion, returns exactly `Merged(d, u)`. |
| Config.MergedKeys | app_coliving_simulation_full_wconfig.py:433-439 | The merged keys are those of both sides. A key only in the defaults keeps its value. |
| Config.UpdateLeavesWin | app_coliving_simulation_full_wconfig.py:435-438 | Every non-dictionary value of the update, at any depth, is found at its path in the result. |
| Config.DefaultsSurvive | app_coliving_simulation_full_wconfig.py:434-438 | A default value at a path that the update does not reach is unchanged. |
| Config.MergeIdempotent | app_coliving_simulation_full_wconfig.py:433-439 | Applying the same update twice gives the same result as applying it once. |
| Config.MergeSelf | app_coliving_simulation_full_wconfig.py:435-436 | A dictionary merged into itself is unchanged. |
| Config.MergeWithEmpty | app_coliving_simulation_full_wconfig.py:433-439 | An empty update changes nothing. An empty default takes the update whole. |
| Projection.ScaledOccupancy | app_coliving_simulation_full.py:749-751 | Scenario occupancy is at most 1. It equals base * factor when that product is <= 1, and it is non-negative when both are. |
| Projection.ScaledRate | app_coliving_simulation_full.py:753-764 | Shares are copied, so the total share is unchanged, and the scenario's blended rate is the price factor times the base rate. |
| Projection.ScaledSeasonsShape | app_coliving_simulation_full.py:741-773 | One scenario season per base season, in order, with the same name, days and room types. |
| Projection.BuildSeasons | app_coliving_simulation_full_wconfig.py:924-957 | The season-building loop yields exactly `ScaledSeasons`. |
| Projection.ExitProceeds | app_coliving_simulation_full.py:833-837 | The horizon-year sale computed from EBITDA, the exit multiple, the exit cost rate and the remaining debt is exactly `NetSale` for the horizon year. |
| Projection.ProjectYear | app_coliving_simulation_full.py:796-857 | One pass of the year loop yields exactly year t's FCFE and DSCR row as `Accounts` and `RowOf` define them. |
| Projection.ProjectYears | app_coliving_simulation_full.py:787-857 | The year loop yields exactly the cash-flow series `Cashflows` and the DSCR table `DscrRows`. |
| Projection.ProjectScenario | app_coliving_simulation_full.py:734-860 | One scenario's revenue, costs, EBITDA, cash flows, IRR and DSCR rows are exactly `Outcome`. |
| Projection.RunScenarios | app_coliving_simulation_full_wconfig.py:907-1041 | One schedule, one depreciation figure and one equity amount are shared. Result i is scenario i's name with its `Outcome`. |
| Projection.YearOneCosts | app_coliving_simulation_full.py:780-784 | Total costs = cost factor * (fixed + revenue * variable rate), and EBITDA = revenue - total costs. |
| Projection.CashflowSeries | app_coliving_simulation_full.py:787-794 | The series has horizon + 1 entries (just the outlay when the horizon is < 1). Entry 0 is -equity and entry t is year t's FCFE. The DSCR table has one row per year, numbered from 1. |
| Projection.EbitdaGrowth | app_coliving_simulation_full.py:796 | Year-1 EBITDA is the year-1 figure, and each year's EBITDA is the previous one times (1 + growth). |
| Projection.DebtByYear | app_coliving_simulation_full.py:799-809 | Inside the loan term, debt service = interest + principal and the remaining debt is >= 0. After the term (or with no loan) nothing is paid and no debt remains. |
| Projection.TaxFloor | app_coliving_simulation_full.py:815-820 | Taxable income is >= 0 and >= EBIT - interest. It is taxed at nothing when EBIT <= interest, and the tax is >= 0 for a non-negative rate. |
| Projection.FcfeIsCfadsAfterDebtService | app_coliving_simulation_full.py:815-838 | FCFE = CFADS - debt service + net sale, and the net sale is 0 in every year but the horizon year. |
| Projection.NoDebtAfterTerm | app_coliving_simulation_full.py:805-809 | In any year at or after the end of the loan term, computed exactly, the remaining debt is 0. |
| Projection.ExitIsDebtFree | app_coliving_simulation_full.py:832-838 | For a loan no longer than the horizon, no debt remains at the exit, and the net sale is the exit value less its costs. |
| Projection.DscrCoverage | app_coliving_simulation_full.py:843-846 | DSCR is None iff the debt service is <= 0. When defined it is >= 1 iff CFADS covers the debt service, which before the horizon year means FCFE >= 0. |
| Projection.CoverageRatio | app_coliving_simulation_full.py:844 | cfads / service >= 1 iff cfads >= service, for a positive service. |
| Projection.ScenarioIrr | app_coliving_simulation_full.py:860 | A scenario has no IRR iff its cash flows never change sign. Otherwise the IRR lies in (-0.9, 1.0). |
| WorkedExample.DortoirWinterRate | coliving_simul.py:171-178 | The dormitory's winter rate is 0.9 * 38 + 0.1 * 230 / 7, between 37.48 and 37.49. |
| WorkedExample.PremiumWinterRate | coliving_simul.py:155-162 | The premium room's winter rate is 90 + 285/7 + 32/3. |
| WorkedExample.PremiumWinterNights | coliving_simul.py:138-149 | 6 premium rooms over 90 days give 540 room-nights, 459 occupied at 85%, and the matching revenue. |
| WorkedExample.UnpricedRoomTypeIsSkipped | coliving_simul.py:137-188 | The script prices all four of its room types in high winter, so the breakdown has four entries. An invented room type added without a price gets no entry (the skip at coliving_simul.py:87-89). |
| WorkedExample.NoOutlayNoIrr | app_coliving_simulation_full_wconfig.py:119-120 | Flows 100, 60, 60 have no IRR. |
| WorkedExample.TwoYearIrrBracket | app_coliving_simulation_full_wconfig.py:119-125 | Flows -100, 60, 60 change sign, and their NPV is positive at 13% and negative at 14%. |

## Left out

- The Streamlit interface (widgets, tabs, charts, styling) is not modelled. The widget values become the parameters of `Projection.RunScenarios`.
- Excel input and output are not modelled: workbook parsing, the template writer, the export workbook and the profit-and-loss and balance-sheet rows built during export. Only `deep_update` of `load_config_from_excel` is kept.
- `get_default_config` is constant data, and `print_results` is terminal output. Neither is modelled.
- Floating point is not modelled. The model computes with exact reals, so `Amortization.ScheduleRepaysDebt` proves an exact zero final balance where binary floats give one only close to zero. The same holds for `Projection.DebtByYear` after the loan term.
- Irr.ComputeIrr: convergence to a true root is not proved. The NPV need not be monotone in the rate, and the code does not check that it is. The model proves the interval, the bracket, the halving and the None result.
- Irr.ComputeIrr: requires `max_iter >= 1` when the flows change sign. With `max_iter <= 0` the source reaches `return mid` with `mid` unbound, which is a crash rather than a result.
- Config.DeepUpdate: modelled on values. The source mutates `d` in place and returns it, so a caller holding an alias to a nested default dictionary would see the change. Key order is not modelled: Dafny maps are unordered.
- Revenue.SimulateAnnualRevenue: the room-type dictionary is a sequence of room types in the dictionary's insertion order. The model does not require the names to be distinct: a name repeated in the sequence gets one breakdown line per occurrence and is counted once per occurrence in the season revenue, where a dictionary would hold it once. Every caller builds the sequence from dictionary keys, so names are distinct there. The per-season dictionary is a sequence of entries with distinct names.
- Projection.RunScenarios: the scenario and base-season dictionaries are sequences of (name, value) pairs in insertion order. It requires a non-zero depreciation period: the source divides by it, and its widget enforces a minimum of 1.
- Projection.BuildSeasons: the two inner loops that fill a season's occupancy and pricing dictionaries are map comprehensions. Their order is invisible in the result.
- WorkedExample.TwoYearIrrBracket: shows that the root lies between 13% and 14%, not the bisection's value of about 13.06%.
