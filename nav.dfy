/**
 * NAV schedules. For each local currency the rows are sorted by date and
 * walked one distinct date at a time, carrying three running balances
 * (outstanding principal, cumulative cash, remaining interest) and
 * recording one schedule row per date.
 */
module Nav {
  import opened Results
  import opened Ordering
  import opened Tables

  const DaysInYear: real := 365.0

  /**
   * The power `base ** exponent` used for the discount factor
   * `(1 + irr) ** (days / 365)`. Floating-point exponentiation is foreign to
   * the model and is passed in; the sign results rely only on `PositivePower`.
   */
  type Power = (real, real) -> real

  /** A positive base raised to any exponent is positive, as for real `**`. */
  ghost predicate PositivePower(power: Power)
  {
    forall base, exponent :: base > 0.0 ==> power(base, exponent) > 0.0
  }

  /** One row of a currency's NAV schedule. */
  datatype NavRow = NavRow(
    date: int,
    cashflowLocal: real,
    loanReceivable: real,
    cashOnHand: real,
    accruedInterest: real,
    netAssetValue: real,
    futurePV: real,
    netAssetPV: real)

  /** The three balances carried from one date to the next. */
  datatype Balances = Balances(principal: real, cash: real, interest: real)

  datatype NavError = MissingIrr(currency: string)

  /** `calculate_cashflow_local`: the net amount of the rows on the date. */
  function CashflowLocal(rowsOnDate: seq<Row>): real
  {
    SumOf(rowsOnDate, LocalAmount)
  }

  function Max0(x: real): (r: real)
    ensures r >= 0.0 && r >= x && (r == x || r == 0.0)
  {
    if x > 0.0 then x else 0.0
  }

  /** An investment paid out: it increases the principal by its absolute amount. */
  predicate IsDrawdown(r: Row)
  {
    r.cashflowType == Investment && r.amountLocal < 0.0
  }

  /** A principal repayment received: it reduces the principal, never below zero. */
  predicate IsRepayment(r: Row)
  {
    r.cashflowType == PrincipalRepayment && r.amountLocal > 0.0
  }

  /** One iteration of the loop in `calculate_loan_receivable_local`. */
  function LoanStep(principal: real, r: Row): real
  {
    if IsDrawdown(r) then principal + -r.amountLocal
    else if IsRepayment(r) then Max0(principal - r.amountLocal)
    else principal
  }

  /** The principal after processing `rows` in order, starting from `principal`. */
  function LoanFold(principal: real, rows: seq<Row>): real
  {
    if rows == [] then principal
    else LoanStep(LoanFold(principal, rows[..|rows| - 1]), rows[|rows| - 1])
  }

  /** `calculate_loan_receivable_local`. */
  method LoanReceivable(currentPrincipal: real, rowsOnDate: seq<Row>) returns (principal: real)
    ensures principal == LoanFold(currentPrincipal, rowsOnDate)
  {
    principal := currentPrincipal;
    for i := 0 to |rowsOnDate|
      invariant principal == LoanFold(currentPrincipal, rowsOnDate[..i])
    {
      var amount := rowsOnDate[i].amountLocal;
      var cashflowType := rowsOnDate[i].cashflowType;
      if cashflowType == Investment && amount < 0.0 {
        principal := principal + -amount;
      } else if cashflowType == PrincipalRepayment && amount > 0.0 {
        principal := Max0(principal - amount);
      }
      assert rowsOnDate[..i + 1][..i] == rowsOnDate[..i];
    }
    assert rowsOnDate[..|rowsOnDate|] == rowsOnDate;
  }

  /** The rows that bring cash in: a strictly positive amount. */
  function Receipts(rowsOnDate: seq<Row>): seq<Row>
  {
    Filter(rowsOnDate, (r: Row) => r.amountLocal > 0.0)
  }

  /**
   * `calculate_cash_on_hand_local`: the cash grows by the positive amounts of
   * the date; it stays put exactly when the date has no positive amount.
   */
  function CashOnHand(currentCash: real, rowsOnDate: seq<Row>): (cash: real)
    ensures cash >= currentCash
    ensures cash == currentCash <==> forall r :: r in rowsOnDate ==> r.amountLocal <= 0.0
  {
    SumOfPositive(Receipts(rowsOnDate), LocalAmount);
    currentCash + SumOf(Receipts(rowsOnDate), LocalAmount)
  }

  /**
   * `calculate_accrued_interest_local`: a positive interest total for the date
   * is taken off the remaining interest, clamped at zero; otherwise the
   * balance is unchanged. From a non-negative balance it never rises and
   * never goes negative.
   */
  function AccruedInterest(remaining: real, rowsOnDate: seq<Row>): (r: real)
    ensures TypeSum(rowsOnDate, Interest) <= 0.0 ==> r == remaining
    ensures remaining >= 0.0 ==> 0.0 <= r <= remaining
    ensures 0.0 <= TypeSum(rowsOnDate, Interest) <= remaining ==>
      r == remaining - TypeSum(rowsOnDate, Interest)
    ensures 0.0 < TypeSum(rowsOnDate, Interest) && remaining <= TypeSum(rowsOnDate, Interest) ==> r == 0.0
  {
    var received := TypeSum(rowsOnDate, Interest);
    if received > 0.0 then Max0(remaining - received) else remaining
  }

  /** `calculate_net_asset_value_local`. */
  function NetAssetValue(loanReceivable: real, cashOnHand: real, accruedInterest: real): real
  {
    loanReceivable + cashOnHand + accruedInterest
  }

  /** `calculate_net_asset_present_value_local`. */
  function NetAssetPresentValue(futureCashflowsPV: real, cashOnHand: real): real
  {
    futureCashflowsPV + cashOnHand
  }

  /** The rows counted in the present value at `targetDate`: strictly later and strictly positive. */
  function FutureRows(rows: seq<Row>, targetDate: int): seq<Row>
  {
    Filter(rows, (r: Row) => r.date > targetDate && r.amountLocal > 0.0)
  }

  /** `amount / factor`; a zero factor, which Python rejects, gives 0 here. */
  function Quotient(amount: real, factor: real): real
  {
    if factor == 0.0 then 0.0 else amount / factor
  }

  /** A row's amount divided by `(1 + irr) ** (days after targetDate / 365)`. */
  function Discounted(power: Power, irr: real, targetDate: int): Row -> real
  {
    (r: Row) => Quotient(r.amountLocal, power(1.0 + irr, (r.date - targetDate) as real / DaysInYear))
  }

  /** The value `calculate_future_cashflows_present_value_local` computes. */
  function PresentValue(rows: seq<Row>, targetDate: int, irr: real, power: Power): real
  {
    SumOf(FutureRows(rows, targetDate), Discounted(power, irr, targetDate))
  }

  lemma DiscountedPositive(power: Power, irr: real, targetDate: int, r: Row)
    requires PositivePower(power) && irr > -1.0
    requires r.amountLocal > 0.0
    ensures Discounted(power, irr, targetDate)(r) > 0.0
  {
    var factor := power(1.0 + irr, (r.date - targetDate) as real / DaysInYear);
    assert factor > 0.0;
    QuotientPositive(r.amountLocal, factor);
  }

  lemma QuotientPositive(a: real, b: real)
    requires a > 0.0 && b > 0.0
    ensures a / b > 0.0
  {
  }

  /**
   * The present value is never negative, and it is positive exactly when some
   * row is dated after `targetDate` with a positive amount.
   */
  lemma PresentValueSign(rows: seq<Row>, targetDate: int, irr: real, power: Power)
    requires PositivePower(power) && irr > -1.0
    ensures PresentValue(rows, targetDate, irr, power) >= 0.0
    ensures PresentValue(rows, targetDate, irr, power) > 0.0 <==>
      exists r :: r in rows && r.date > targetDate && r.amountLocal > 0.0
  {
    var future := FutureRows(rows, targetDate);
    var f := Discounted(power, irr, targetDate);
    forall r | r in future ensures f(r) > 0.0 {
      DiscountedPositive(power, irr, targetDate, r);
    }
    SumOfPositive(future, f);
    SumOfNonNegative(future, f);
    if future != [] {
      var r := future[0];
      assert r in future;
      assert r in rows && r.date > targetDate && r.amountLocal > 0.0;
    }
    if exists r :: r in rows && r.date > targetDate && r.amountLocal > 0.0 {
      var r :| r in rows && r.date > targetDate && r.amountLocal > 0.0;
      assert r in future;
    }
  }

  /**
   * `calculate_future_cashflows_present_value_local`: 0 when no row is later
   * and positive, otherwise the sum of the discounted later positive amounts.
   */
  method FuturePV(currRows: seq<Row>, targetDate: int, irr: real, power: Power) returns (pv: real)
    ensures pv == PresentValue(currRows, targetDate, irr, power)
  {
    var futureCashflows := FutureRows(currRows, targetDate);
    if futureCashflows == [] {
      return 0.0;
    }
    pv := 0.0;
    for i := 0 to |futureCashflows|
      invariant pv == SumOf(futureCashflows[..i], Discounted(power, irr, targetDate))
    {
      var row := futureCashflows[i];
      var daysDiff := row.date - targetDate;
      var discountFactor := power(1.0 + irr, daysDiff as real / DaysInYear);
      pv := pv + Quotient(row.amountLocal, discountFactor);
      assert futureCashflows[..i + 1][..i] == futureCashflows[..i];
    }
    assert futureCashflows[..|futureCashflows|] == futureCashflows;
  }

  /** The balances after one date's rows. */
  function Advance(b: Balances, rowsOnDate: seq<Row>): Balances
  {
    Balances(
      LoanFold(b.principal, rowsOnDate),
      CashOnHand(b.cash, rowsOnDate),
      AccruedInterest(b.interest, rowsOnDate))
  }

  /** No principal, no cash, and the whole interest of the currency still to come. */
  function InitialBalances(sorted: seq<Row>): Balances
  {
    Balances(0.0, 0.0, TypeSum(sorted, Interest))
  }

  /** The balances carried out of the last date, or the initial ones before any date. */
  function Latest(b0: Balances, bs: seq<Balances>): Balances
  {
    if bs == [] then b0 else bs[|bs| - 1]
  }

  /** The update of the balances by the rows of one date. */
  function DateStep(sorted: seq<Row>): (Balances, int) -> Balances
  {
    (b: Balances, d: int) => Advance(b, OnDate(sorted, d))
  }

  /** The balances after each date of `ds`, in order: the running state of the date loop. */
  function RunningBalances(ds: seq<int>, b0: Balances, step: (Balances, int) -> Balances): (bs: seq<Balances>)
    ensures |bs| == |ds|
  {
    if ds == [] then []
    else
      var before := RunningBalances(ds[..|ds| - 1], b0, step);
      before + [step(Latest(b0, before), ds[|ds| - 1])]
  }

  /** The schedule row for date `d`, given the balances after that date. */
  function MakeRow(sorted: seq<Row>, d: int, b: Balances, irr: real, power: Power): NavRow
  {
    var pv := PresentValue(sorted, d, irr, power);
    NavRow(
      d,
      CashflowLocal(OnDate(sorted, d)),
      b.principal,
      b.cash,
      b.interest,
      NetAssetValue(b.principal, b.cash, b.interest),
      pv,
      NetAssetPresentValue(pv, b.cash))
  }

  function RowMaker(sorted: seq<Row>, irr: real, power: Power): (int, Balances) -> NavRow
  {
    (d: int, b: Balances) => MakeRow(sorted, d, b, irr, power)
  }

  /** The schedule rows for the dates `ds`, one per date, in order. */
  function ScheduleRows(ds: seq<int>, b0: Balances, step: (Balances, int) -> Balances, make: (int, Balances) -> NavRow): seq<NavRow>
  {
    if ds == [] then []
    else
      ScheduleRows(ds[..|ds| - 1], b0, step, make)
        + [make(ds[|ds| - 1], Latest(b0, RunningBalances(ds, b0, step)))]
  }

  /** The distinct dates of `rows`, ascending: the groups of `groupby("Date")`. */
  function DistinctDates(rows: seq<Row>): seq<int>
  {
    DistinctSorted(Dates(rows), IntLess)
  }

  /** The schedule `generate_nav_schedule` builds for the rows of one currency. */
  function Schedule(currRows: seq<Row>, irr: real, power: Power): seq<NavRow>
  {
    var sorted := SortBy(currRows, RowDate);
    ScheduleRows(DistinctDates(sorted), InitialBalances(sorted), DateStep(sorted), RowMaker(sorted, irr, power))
  }

  /** One more date: one more balance update and one more row. */
  lemma ScheduleStep(ds: seq<int>, i: int, b0: Balances, step: (Balances, int) -> Balances, make: (int, Balances) -> NavRow)
    requires 0 <= i < |ds|
    ensures Latest(b0, RunningBalances(ds[..i + 1], b0, step))
      == step(Latest(b0, RunningBalances(ds[..i], b0, step)), ds[i])
    ensures ScheduleRows(ds[..i + 1], b0, step, make)
      == ScheduleRows(ds[..i], b0, step, make) + [make(ds[i], Latest(b0, RunningBalances(ds[..i + 1], b0, step)))]
  {
    assert ds[..i + 1][..i] == ds[..i];
  }

  /** The body of the date loop of `generate_nav_schedule`: the balances carried out of one date and that date's row. */
  method ScheduleDate(sorted: seq<Row>, currentDate: int, irr: real, power: Power, before: Balances)
    returns (after: Balances, row: NavRow)
    ensures after == DateStep(sorted)(before, currentDate)
    ensures row == RowMaker(sorted, irr, power)(currentDate, after)
  {
    var rowsOnDate := OnDate(sorted, currentDate);
    var cashflowLocal := CashflowLocal(rowsOnDate);
    var principalOutstanding := LoanReceivable(before.principal, rowsOnDate);
    var cashOnHand := CashOnHand(before.cash, rowsOnDate);
    var interestRemaining := AccruedInterest(before.interest, rowsOnDate);
    var navValue := NetAssetValue(principalOutstanding, cashOnHand, interestRemaining);
    var futurePV := FuturePV(sorted, currentDate, irr, power);
    var netAssetPV := NetAssetPresentValue(futurePV, cashOnHand);
    after := Balances(principalOutstanding, cashOnHand, interestRemaining);
    row := NavRow(currentDate, cashflowLocal, principalOutstanding, cashOnHand,
      interestRemaining, navValue, futurePV, netAssetPV);
  }

  /** The body of the outer loop of `generate_nav_schedule`, for one currency. */
  method ScheduleForCurrency(currRows: seq<Row>, irr: real, power: Power) returns (schedule: seq<NavRow>)
    ensures schedule == Schedule(currRows, irr, power)
  {
    var sorted := SortBy(currRows, RowDate);
    var totalInterest := TypeSum(sorted, Interest);
    var dates := DistinctDates(sorted);
    ghost var b0, step, make := InitialBalances(sorted), DateStep(sorted), RowMaker(sorted, irr, power);
    schedule := [];
    var cashOnHand, interestRemaining, principalOutstanding := 0.0, totalInterest, 0.0;
    for i := 0 to |dates|
      invariant schedule == ScheduleRows(dates[..i], b0, step, make)
      invariant Balances(principalOutstanding, cashOnHand, interestRemaining)
        == Latest(b0, RunningBalances(dates[..i], b0, step))
    {
      var after, row := ScheduleDate(sorted, dates[i], irr, power,
        Balances(principalOutstanding, cashOnHand, interestRemaining));
      principalOutstanding, cashOnHand, interestRemaining := after.principal, after.cash, after.interest;
      ScheduleStep(dates, i, b0, step, make);
      schedule := schedule + [row];
    }
    assert dates[..|dates|] == dates;
  }

  function ScheduleCurrency(entry: (string, seq<NavRow>)): string { entry.0 }

  /** The `(currency, schedule)` entries for the currencies `cs`, in that order. */
  function SchedulesFor(rows: seq<Row>, cs: seq<string>, irrs: map<string, real>, power: Power): seq<(string, seq<NavRow>)>
    requires forall j :: 0 <= j < |cs| ==> cs[j] in irrs
  {
    if cs == [] then []
    else
      var c := cs[|cs| - 1];
      SchedulesFor(rows, cs[..|cs| - 1], irrs, power) + [(c, Schedule(InCurrency(rows, c), irrs[c], power))]
  }

  /** One more currency: one more entry at the end. */
  lemma SchedulesForStep(rows: seq<Row>, cs: seq<string>, i: int, irrs: map<string, real>, power: Power)
    requires 0 <= i < |cs|
    requires forall j :: 0 <= j <= i ==> cs[j] in irrs
    ensures SchedulesFor(rows, cs[..i + 1], irrs, power)
      == SchedulesFor(rows, cs[..i], irrs, power) + [(cs[i], Schedule(InCurrency(rows, cs[i]), irrs[cs[i]], power))]
  {
    assert cs[..i + 1][..i] == cs[..i];
  }

  /** Every currency of the table has an IRR. */
  predicate IrrsCover(rows: seq<Row>, irrs: map<string, real>)
  {
    forall c :: c in Currencies(rows) ==> c in irrs
  }

  /** The dictionary `generate_nav_schedule` returns, keyed by currency in `groupby` order. */
  function NavSchedules(rows: seq<Row>, irrs: map<string, real>, power: Power): seq<(string, seq<NavRow>)>
    requires IrrsCover(rows, irrs)
  {
    var cs := DistinctSorted(Currencies(rows), StrLess);
    AllIrrsFound(rows, cs, irrs);
    SchedulesFor(rows, cs, irrs, power)
  }

  /**
   * `generate_nav_schedule`: one schedule per local currency, in ascending
   * currency order. Looking up a currency that has no IRR raises a `KeyError`
   * for the first such currency in that order.
   */
  method GenerateNavSchedule(rows: seq<Row>, irrs: map<string, real>, power: Power)
    returns (r: Result<seq<(string, seq<NavRow>)>, NavError>)
    ensures r.Success? <==> IrrsCover(rows, irrs)
    ensures r.Failure? ==>
      r.error.currency in Currencies(rows) && r.error.currency !in irrs &&
      forall c :: c in Currencies(rows) && StrLess(c, r.error.currency) ==> c in irrs
    ensures r.Success? ==> r.value == NavSchedules(rows, irrs, power)
  {
    var currencies := DistinctSorted(Currencies(rows), StrLess);
    var schedules: seq<(string, seq<NavRow>)> := [];
    for i := 0 to |currencies|
      invariant forall j :: 0 <= j < i ==> currencies[j] in irrs
      invariant schedules == SchedulesFor(rows, currencies[..i], irrs, power)
    {
      var currency := currencies[i];
      if currency !in irrs {
        MissingIrrIsFirst(rows, currencies, i, irrs);
        return Failure(MissingIrr(currency));
      }
      var schedule := ScheduleForCurrency(InCurrency(rows, currency), irrs[currency], power);
      SchedulesForStep(rows, currencies, i, irrs, power);
      schedules := schedules + [(currency, schedule)];
    }
    assert currencies[..|currencies|] == currencies;
    AllIrrsFound(rows, currencies, irrs);
    return Success(schedules);
  }

  /** Every currency sorted before the failing one was found, so the failing one is the least missing. */
  lemma MissingIrrIsFirst(rows: seq<Row>, currencies: seq<string>, i: int, irrs: map<string, real>)
    requires currencies == DistinctSorted(Currencies(rows), StrLess)
    requires 0 <= i < |currencies| && currencies[i] !in irrs
    requires forall j :: 0 <= j < i ==> currencies[j] in irrs
    ensures currencies[i] in Currencies(rows)
    ensures forall c :: c in Currencies(rows) && StrLess(c, currencies[i]) ==> c in irrs
  {
    StrLessIsStrictTotal();
    DistinctSortedSpec(Currencies(rows), StrLess);
    assert currencies[i] in currencies;
    forall j | i <= j < |currencies| ensures !StrLess(currencies[j], currencies[i]) {
      if j > i {
        assert StrLess(currencies[i], currencies[j]);
      }
    }
  }

  /** When the loop completes, every currency of the table has an IRR. */
  lemma AllIrrsFound(rows: seq<Row>, currencies: seq<string>, irrs: map<string, real>)
    requires currencies == DistinctSorted(Currencies(rows), StrLess)
    ensures IrrsCover(rows, irrs) <==> forall j :: 0 <= j < |currencies| ==> currencies[j] in irrs
    ensures StrictlySorted(currencies, StrLess)
    ensures forall c :: c in currencies <==> c in Currencies(rows)
  {
    DistinctStrings(Currencies(rows));
    if forall j :: 0 <= j < |currencies| ==> currencies[j] in irrs {
      forall c | c in Currencies(rows) ensures c in irrs {
        var j :| 0 <= j < |currencies| && currencies[j] == c;
      }
    }
    if IrrsCover(rows, irrs) {
      forall j | 0 <= j < |currencies| ensures currencies[j] in irrs {
        assert currencies[j] in currencies;
      }
    }
  }
}
