# CST case study analytics in Dafny

This project models the analytic core of a fund cashflow pipeline and proves
properties of the model. The pipeline:

- validates raw cashflow rows into typed records;
- selects one fund's rows;
- computes internal rates of return (per local currency and for the fund in
  base currency);
- builds a NAV schedule per local currency (loan receivable, cash on hand,
  accrued interest, net asset value, present value of future cashflows and
  net asset present value on every distinct date);
- proposes FX forward sales that hedge each non-base currency along its NAV
  schedule.

One Dafny module per source concern:

| module | file | models |
|---|---|---|
| `Results` | results.dfy | `Result`/`Option` values for the error paths |
| `Ordering` | ordering.dfy | `sort_values` (a sort by an integer key), `groupby` keys (distinct values, ascending), Python's string order, `min`/`max` |
| `Tables` | tables.dfy | the validated table's `Row`, boolean-mask selection (`Filter`), column sums (`SumOf`), groups |
| `Models` | models.dfy | `CashflowRecord` and its field validators |
| `Validation` | validation.dfy | `validate_records`, `validate_cashflows` |
| `Loader` | loader.dfy | `filter_by_fund` |
| `Irr` | irr.dfy | `calculate_irr`, `calculate_currency_irrs`, `calculate_fund_irr` |
| `Nav` | nav.dfy | the NAV calculations and `generate_nav_schedule` |
| `NavProperties` | nav_properties.dfy | what the NAV schedules satisfy |
| `FxForwards` | fx_forwards.dfy | `ForwardTrade`, `_nav_value_on_date`, `_get_principal_amount`, `propose_fx_trades` |

The source's loops are methods with loop invariants, each proved equal to a
specification function; the properties are lemmas about those functions:

- `LoanReceivable` and `LoanFold`;
- `FuturePV` and `PresentValue`;
- `ScheduleForCurrency` and `Schedule`;
- `GenerateNavSchedule` and `NavSchedules`;
- `CalculateIrr` and `Ordered`;
- `ValidateRecords` and `AllOrFirstError`;
- `HedgeCurrency` and `CurrencyTrades`;
- `ProposeFxTrades` and `Proposals`.

Foreign code is passed in as parameters:

- the `xirr` solver, a function from the ordered (date, amount) entries to a rate;
- floating-point exponentiation (`Power`);
- `round(x, 2)` (`round2`);
- `relativedelta(months=3)` (`addMonths3`);
- the `dateutil` parser (`parse`).

Whatever a lemma needs of these is stated as its precondition:

- `PositivePower`: a positive base gives a positive power;
- `RoundsToCents`: rounding moves an amount by at most 0.005;
- `MovesForward`: three months on is later.

Dates in the analytic tables are day numbers. Amounts are Dafny `real`s, so
there is no floating-point rounding.

## Model

| member | source | states |
|---|---|---|
| Models.Strip | src/case_study/data/models.py:40 | `str.strip()`: the result is a slice of the input with only whitespace before and after it, and it neither starts nor ends with a Python whitespace character |
| Models.RemoveBackticks | src/case_study/data/models.py:40 | ``replace("`", "")``: no backtick remains and every other character keeps its number of occurrences |
| Models.RemoveBackticksConcat | src/case_study/data/models.py:40 | ``replace("`", "")`` keeps the order of what remains: it distributes over concatenation and on a single character drops exactly a backtick |
| Models.CleanDateTextSpec | src/case_study/data/models.py:39-41 | the cleaned date text never holds a backtick; for text without backticks the cleaning is exactly `strip()` |
| Models.CleanDateTextKeepsShieldedSpace | src/case_study/data/models.py:40 | stripping runs before the backticks go, so ``"` 1`"`` is cleaned to `" 1"` with its inner space kept |
| Models.ValidateDate | src/case_study/data/models.py:34-44 | a datetime passes unchanged, a date becomes midnight of that day, a string succeeds exactly when the parser accepts its cleaned text (with the parser's value), any other value is the unsupported-type error |
| Models.ValidateCashflowType | src/case_study/data/models.py:46-51 | accepted exactly when the type is Investment, Interest or Principal Repayment, unchanged; the error message ends with the rejected value |
| Models.NormalizeCurrencySpec | src/case_study/data/models.py:53-58 | the correction table turns only GPB into GBP and is idempotent |
| Models.ValidateCurrency | src/case_study/data/models.py:60-65 | accepted exactly when the currency is GBP, EUR or USD, unchanged; the error message ends with the rejected value |
| Models.LocalCurrencyFieldSpec | src/case_study/data/models.py:53-65 | the Local_Currency field (correction, then whitelist) accepts GPB as GBP and otherwise exactly the whitelist, keeping the value |
| Models.ValidateBaseCurrency | src/case_study/data/models.py:67-72 | accepted exactly when the base currency is EUR |
| Models.ValidateRecord | src/case_study/data/models.py:12-72 | a row validates exactly when its date, type, corrected currency and base currency all pass; the record then holds allowed values and the row's id, fund and amounts unchanged; an unsupported date type always fails with the type error |
| Validation.AllOrFirstErrorSpec | src/case_study/data/validation.py:20-29 | the batch succeeds exactly when every row passes, holding the rows' records in order; otherwise it fails with the error of the first failing row |
| Validation.AllOrFirstErrorPrefix | src/case_study/data/validation.py:21-28 | once a prefix of the rows has failed, the whole batch fails with that error (the loop stops at the first failure) |
| Validation.ValidateRecords | src/case_study/data/validation.py:15-29 | the loop returns the fold `AllOrFirstError` of the record validator over the rows |
| Validation.ValidateCashflows | src/case_study/data/validation.py:32-38 | returns the records of `validate_records`, each dumped as a table row, or the batch error |
| Validation.CashflowTableSpec | src/case_study/data/validation.py:32-38 | the table has one row per raw row, in order, each with an allowed type, an allowed currency and EUR as base; it fails exactly when some row does, with the first such row's error |
| Loader.FilterByFund | src/case_study/data/loader.py:36-61 | an empty table is the empty-table error; the fund is found exactly when some row has it, and the result is then its non-empty rows in their original order; otherwise the error lists the fund names present, sorted and without repeats |
| Loader.FilterByFundIdempotent | src/case_study/data/loader.py:53-61 | filtering the result by the same fund again returns it unchanged |
| Loader.OfFundExact | src/case_study/data/loader.py:53 | selection by fund distributes over concatenation and keeps each of the fund's rows exactly as often as it occurs |
| Ordering.SortBy | src/case_study/metric_calculations/nav.py:201 | `sort_values`: the result is a permutation of its input, ascending in the key |
| Ordering.DistinctSortedSpec | src/case_study/metric_calculations/nav.py:200 | `groupby` keys under a strict total order: strictly ascending and exactly the values that occur |
| Ordering.DistinctStrings | src/case_study/metric_calculations/irr.py:43 | string group keys in Python's order are strictly ascending and exactly the strings that occur |
| Ordering.MinOf | src/case_study/hedging_strategies/fx_forwards.py:58 | `min(all_dates)` is one of the dates and no date is below it |
| Ordering.MaxOf | src/case_study/hedging_strategies/fx_forwards.py:59 | `max(all_dates)` is one of the dates and no date is above it |
| Tables.Filter | src/case_study/data/loader.py:53 | boolean-mask selection keeps exactly the rows satisfying the mask |
| Tables.FilterFirst | src/case_study/hedging_strategies/fx_forwards.py:26-29 | `.iloc[0]` of a selection is the earliest row satisfying the mask |
| Irr.AggregateKeys | src/case_study/metric_calculations/irr.py:24-26 | the `defaultdict` after the loop has exactly the dates of the input as keys |
| Irr.InsertionOrderDistinct | src/case_study/metric_calculations/irr.py:24-27 | the dictionary's insertion order lists each date once |
| Irr.AggregateValues | src/case_study/metric_calculations/irr.py:24-26 | each date maps to the total of the cashflows on that date |
| Irr.AggregateSpec | src/case_study/metric_calculations/irr.py:24-27 | the three facts above together |
| Irr.ItemsSpec | src/case_study/metric_calculations/irr.py:24-27 | `aggregated.items()`: distinct dates, exactly the input's dates, each with its total |
| Irr.OrderedSpec | src/case_study/metric_calculations/irr.py:27-28 | what `xirr` receives: one entry per distinct date, dates strictly ascending, each holding its date's total |
| Irr.OrderedTotal | src/case_study/metric_calculations/irr.py:24-28 | aggregation keeps the total: the entries sum to the sum of all cashflows |
| Irr.OrderedPermutation | src/case_study/metric_calculations/irr.py:24-28 | reordering the (date, cashflow) pairs does not change what `xirr` receives |
| Irr.CalculateIrr | src/case_study/metric_calculations/irr.py:15-28 | a length mismatch is the first error, an empty series the second; otherwise the result is `xirr` of the ordered date totals |
| Irr.CalculateCurrencyIrrs | src/case_study/metric_calculations/irr.py:31-48 | one IRR per local currency present and no other key, each `xirr` of that currency's local (date, amount) pairs |
| Irr.CurrencyIrr | src/case_study/metric_calculations/irr.py:43-47 | the loop body: the sorted group's IRR is `xirr` of the group's ordered local entries |
| Irr.SortedGroupIrr | src/case_study/metric_calculations/irr.py:43-47 | a present currency's sorted group is non-empty and sorting it does not change the entries `xirr` receives |
| Irr.CalculateFundIrr | src/case_study/metric_calculations/irr.py:51-63 | an empty table is the empty-series error; otherwise `xirr` of the base amounts of all rows, whatever their currency |
| Nav.LoanReceivable | src/case_study/metric_calculations/nav.py:21-43 | the loop computes the fold `LoanFold` of the date's rows over the principal |
| Nav.CashOnHand | src/case_study/metric_calculations/nav.py:46-63 | the cash never falls, and stays put exactly when the date has no positive amount |
| Nav.AccruedInterest | src/case_study/metric_calculations/nav.py:66-85 | unchanged when the date's interest total is not positive; from a non-negative balance it never rises nor goes negative; reduced by exactly the interest while the balance covers it, and 0 when the interest received reaches or exceeds the balance |
| Nav.PresentValueSign | src/case_study/metric_calculations/nav.py:136-149 | with a positive power and an IRR above -100%, the present value is non-negative and positive exactly when some row is later and positive |
| Nav.FuturePV | src/case_study/metric_calculations/nav.py:112-149 | the loop returns the sum of the later positive amounts, each divided by `(1 + irr) ** (days / 365)`, and 0 when there are none |
| Nav.ScheduleDate | src/case_study/metric_calculations/nav.py:216-246 | the date loop's body: the balances after the date are one `Advance` of the balances before it, and the row records them with NAV, PV and NAPV |
| Nav.ScheduleForCurrency | src/case_study/metric_calculations/nav.py:201-248 | one currency's schedule equals the specification `Schedule` of its rows |
| Nav.GenerateNavSchedule | src/case_study/metric_calculations/nav.py:174-250 | succeeds exactly when every currency has an IRR, with one schedule per currency in ascending currency order; otherwise the `KeyError` names the least currency without an IRR |
| Nav.MissingIrrIsFirst | src/case_study/metric_calculations/nav.py:200-202 | the currency that raises is present and every currency sorted before it has an IRR |
| Nav.AllIrrsFound | src/case_study/metric_calculations/nav.py:200-202 | the loop finishes exactly when every currency present has an IRR; the keys are strictly ascending and exactly the currencies present |
| NavProperties.DistinctDatesSpec | src/case_study/metric_calculations/nav.py:216 | `groupby("Date")` visits strictly ascending dates, exactly the dates of the rows |
| NavProperties.DistinctDatesPermutation | src/case_study/metric_calculations/nav.py:201 | sorting the rows first does not change which dates are visited |
| NavProperties.ScheduleInputs | src/case_study/metric_calculations/nav.py:216-245 | row `i` of a schedule is the `i`-th distinct date; its cashflow is that date's net amount and its present value that of the currency's rows as given |
| NavProperties.ScheduleValues | src/case_study/metric_calculations/nav.py:225-245 | the balance columns are the running balances; NAV is their sum; NAPV is PV plus cash on hand |
| NavProperties.ScheduleNetAssetPV | src/case_study/metric_calculations/nav.py:152-171 | with a positive power and an IRR above -100%, each date's NAPV is at least its non-negative cash on hand, exceeds it exactly when a positive amount is still to come, and equals it on the last date |
| NavProperties.ScheduleDates | src/case_study/metric_calculations/nav.py:216-237 | the date column is the list of distinct dates |
| NavProperties.ScheduleShape | src/case_study/metric_calculations/nav.py:216-237 | one row per distinct date: dates strictly ascending, each the date of some row, every row's date present |
| NavProperties.LoanFoldNonNegative | src/case_study/metric_calculations/nav.py:21-43 | from a non-negative principal the loan receivable is never negative |
| NavProperties.AdvanceBounds | src/case_study/metric_calculations/nav.py:217-224 | one date's update keeps the principal non-negative, never lowers the cash, and lowers a non-negative interest balance without taking it below 0 |
| NavProperties.BalancesMove | src/case_study/metric_calculations/nav.py:212-224 | along the dates, for any update that keeps those bounds: principal non-negative, cash non-decreasing, interest non-increasing and non-negative |
| NavProperties.ScheduleCashAndLoan | src/case_study/metric_calculations/nav.py:212-224 | in a schedule the loan receivable is never negative and the cash on hand is non-negative and never falls |
| NavProperties.ScheduleInterest | src/case_study/metric_calculations/nav.py:205-224 | with a non-negative interest total, the accrued interest never exceeds that total, never rises and never goes negative |
| NavProperties.PresentValueNothingLater | src/case_study/metric_calculations/nav.py:136-141 | nothing dated after the target date: the present value is 0 |
| NavProperties.LastPresentValueZero | src/case_study/metric_calculations/nav.py:228-230 | on a schedule's last date the present value of future cashflows is 0 |
| NavProperties.PresentValuesSign | src/case_study/metric_calculations/nav.py:228-230 | every present value in a schedule is non-negative and positive exactly when a positive amount is still to come |
| NavProperties.CashflowLocalNet | src/case_study/metric_calculations/nav.py:14-18 | a date's net cashflow is the money received plus the money paid out, whatever the order of its rows |
| NavProperties.CashflowColumnTotal | src/case_study/metric_calculations/nav.py:216-217 | the net cashflow column adds up to the currency's total local amount |
| NavProperties.LoanFoldIgnoresOthers | src/case_study/metric_calculations/nav.py:34-41 | only drawdowns (negative investments) and positive repayments move the principal |
| NavProperties.LoanFoldUnclamped | src/case_study/metric_calculations/nav.py:34-41 | while the principal covers the repayments no clamping happens: principal plus drawn minus repaid |
| NavProperties.AdvanceContract | src/case_study/metric_calculations/nav.py:217-224 | one date of a plain loan, while covered: principal moves by drawn minus repaid, cash by receipts, interest by interest paid |
| NavProperties.CashReceived | src/case_study/metric_calculations/nav.py:60-63 | the cash grows by the sum of the positive amounts |
| NavProperties.InterestReceived | src/case_study/metric_calculations/nav.py:80-85 | for a plain loan's date the interest falls by the interest paid while the balance covers it |
| NavProperties.BalancesClosedForm | src/case_study/metric_calculations/nav.py:211-224 | the running balances after `k + 1` dates are the closed form: drawn minus repaid, all receipts, interest total minus interest paid, each through those dates |
| NavProperties.BalancesPlainLoan | src/case_study/metric_calculations/nav.py:205-224 | for a plain loan never repaid beyond what was drawn, the balances on a date are: drawn minus repaid by then, received by then, interest still to come |
| NavProperties.ScheduleClosedForm | src/case_study/metric_calculations/nav.py:205-245 | the same, read off the schedule columns on every date |
| NavProperties.NavPlainLoan | src/case_study/metric_calculations/nav.py:88-110 | for such a loan the NAV on a date is what was drawn by then plus the whole interest |
| NavProperties.NavConstant | src/case_study/metric_calculations/nav.py:98-108 | the docstring's "constant across all dates" holds when, besides, every drawdown falls on the first date: the NAV is always the whole drawdown plus the whole interest |
| NavProperties.NavGrowsByDrawdowns | src/case_study/metric_calculations/nav.py:98-110 | between two dates of such a loan the NAV grows by exactly what was drawn in between, so it never falls |
| FxForwards.NavValueOnDateSpec | src/case_study/hedging_strategies/fx_forwards.py:25-29 | the lookup fails with the no-data error exactly when no schedule row has the date; otherwise it is the NAV of the first row that has it |
| FxForwards.PrincipalAmount | src/case_study/hedging_strategies/fx_forwards.py:32-41 | the principal is never negative, and 0 when the table lacks the columns |
| FxForwards.PrincipalIsDrawn | src/case_study/hedging_strategies/fx_forwards.py:36-38 | when every Investment row of the currency is negative, the principal is the total drawn in that currency |
| FxForwards.CollectDates | src/case_study/hedging_strategies/fx_forwards.py:53-55 | the loop collects every schedule's dates, schedule by schedule |
| FxForwards.TradeDatesScheduled | src/case_study/hedging_strategies/fx_forwards.py:68-78 | every trade date is a date of its schedule, so the NAV lookup never raises |
| FxForwards.HedgeCurrency | src/case_study/hedging_strategies/fx_forwards.py:72-97 | the inner loop returns `CurrencyTrades`: per date, a sale of the exposure when it is worth hedging |
| FxForwards.ProposeFxTrades | src/case_study/hedging_strategies/fx_forwards.py:44-99 | fails exactly when the fund table has no row (the base currency cannot be read); otherwise returns `Proposals` |
| FxForwards.TradeAtFacts | src/case_study/hedging_strategies/fx_forwards.py:75-97 | at most one trade per date; it sells the currency against the base on that date, delivered on `DeliveryDate`, for the rounded exposure, which is positive and at least 0.01 |
| FxForwards.CurrencyTradeOrigin | src/case_study/hedging_strategies/fx_forwards.py:72-97 | every trade of a currency comes from one of its trade dates |
| FxForwards.CurrencyTradeKept | src/case_study/hedging_strategies/fx_forwards.py:72-97 | every date's trade is among the currency's trades |
| FxForwards.HedgeTradeOrigin | src/case_study/hedging_strategies/fx_forwards.py:61-97 | every proposed trade comes from the schedule of a currency other than the base one |
| FxForwards.NoBaseCurrencyTrade | src/case_study/hedging_strategies/fx_forwards.py:61-96 | no trade is in the base currency: each sells a scheduled currency, quoted against the base currency |
| FxForwards.NotionalsPositive | src/case_study/hedging_strategies/fx_forwards.py:80-95 | with a rounding to cents, every notional is positive |
| FxForwards.WindowKeepsEveryDate | src/case_study/hedging_strategies/fx_forwards.py:53-68 | the window from the earliest to the latest date keeps every date, so a currency's trade dates are all its schedule dates, ascending |
| FxForwards.DeliveryBounds | src/case_study/hedging_strategies/fx_forwards.py:83-86 | over ascending dates inside the window, a delivery date lies between its trade date and the last date |
| FxForwards.DeliveryInWindow | src/case_study/hedging_strategies/fx_forwards.py:58-86 | when three months on is later, every trade is delivered no earlier than it is struck and no later than the last date of all schedules |
| FxForwards.CurrencyTradesAscend | src/case_study/hedging_strategies/fx_forwards.py:72-97 | over strictly ascending dates a currency's trades have strictly ascending trade dates |
| FxForwards.TradesAscendPerCurrency | src/case_study/hedging_strategies/fx_forwards.py:64-97 | with distinct schedule currencies and no repeated date, each currency's trades ascend strictly in trade date: at most one per currency and date |
| FxForwards.TradeOnDateIff | src/case_study/hedging_strategies/fx_forwards.py:72-97 | a currency is traded on a date exactly when that date's exposure is found and worth hedging, and the trade sells that exposure rounded |

## Left out

- Reading the Excel file (`read_excel`), `main.py` and `run.py` are I/O and orchestration. The model starts from rows already read.
- pydantic's own machinery is not modelled: the parsing of `ID` and the amounts, aliases and coercion.
- Validation.ValidateRecords: on a failing row, validation.py:25-28 calls `ValidationError(errors=..., model=...)`. pydantic v2's `ValidationError` cannot be built that way, so the caller receives a `TypeError` whose cause is the row's own `ValidationError`. The model's batch error is that cause: the first failing row's field errors. The source marks these lines as excluded from coverage.
- The `xirr` solver, floating-point `**`, `round` and `relativedelta` are foreign numeric and calendar code. They are parameters, and the facts a lemma needs of them are preconditions of that lemma.
- Nav.Quotient returns 0 for a zero discount factor, where Python raises `ZeroDivisionError`. The factor is zero only when the IRR is exactly -100%, and the sign lemmas require an IRR above -100%.
- Time of day: the analytic tables use day numbers, so `pd.Timestamp(...)` and the datetime comparisons work on whole days. `Validation.ToRow` keeps the day of the parsed datetime.
- Ordering.SortBy is a stable sort. pandas' default `sort_values` does not promise stability, so rows sharing a date are processed in their original order. Only the order of a drawdown and a repayment on the same date can then change the clamped principal.
- In `_get_principal_amount`, the test for the two columns is the boolean `hasColumns`, because the model's rows always carry every column.
- The check `currency not in nav_schedules` in `propose_fx_trades` cannot fail, because the currencies come from the dictionary's own keys. The model leaves it out.
- FxForwards.TradeAt has a branch for a failed NAV lookup that yields no trade. FxForwards.TradeDatesScheduled shows that this branch is never taken.
- The rows of `pd.DataFrame([...])` and `trade.__dict__` are the `NavRow` and `ForwardTrade` datatypes. The dictionary of schedules is a sequence of (currency, schedule) pairs in insertion order, and the dictionary of IRRs is a map.
- NavProperties.NavConstant: the docstring at nav.py:98-108 says the NAV is constant across all dates. The model proves this only for plain loans that are never repaid beyond what was drawn and have every drawdown on the first date. NavProperties.NavGrowsByDrawdowns shows that a later drawdown raises the NAV.
