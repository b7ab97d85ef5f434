/**
 * What the NAV schedules of `Nav` satisfy: their shape (one row per distinct
 * date, ascending), the meaning of each column in terms of the unsorted rows
 * of the currency, the movement of the three balances from date to date, and
 * the conditions under which the net asset value is constant.
 */
module NavProperties {
  import opened Ordering
  import opened Tables
  import opened Nav

  /** The distinct dates are strictly ascending and are exactly the dates of the rows. */
  lemma DistinctDatesSpec(rows: seq<Row>)
    ensures forall i, j :: 0 <= i < j < |DistinctDates(rows)| ==> DistinctDates(rows)[i] < DistinctDates(rows)[j]
    ensures forall d :: d in DistinctDates(rows) <==> exists r :: r in rows && r.date == d
  {
    IntLessIsStrictTotal();
    DistinctSortedSpec(Dates(rows), IntLess);
    forall d ensures d in Dates(rows) <==> exists r :: r in rows && r.date == d {
      MapSeqMember(rows, RowDate, d);
    }
  }

  /** Reordering the rows does not change their distinct dates. */
  lemma DistinctDatesPermutation(s: seq<Row>, t: seq<Row>)
    requires multiset(s) == multiset(t)
    ensures DistinctDates(s) == DistinctDates(t)
  {
    IntLessIsStrictTotal();
    DistinctSortedSpec(Dates(s), IntLess);
    DistinctSortedSpec(Dates(t), IntLess);
    forall d ensures d in Dates(s) <==> d in Dates(t) {
      MapSeqMember(s, RowDate, d);
      MapSeqMember(t, RowDate, d);
      assert forall r :: r in s <==> r in t by {
        forall r ensures r in s <==> r in t {
          assert r in s <==> multiset(s)[r] > 0;
        }
      }
    }
    SortedUnique(DistinctDates(s), DistinctDates(t), IntLess);
  }

  lemma {:induction false} ScheduleRowsLength(ds: seq<int>, b0: Balances, step: (Balances, int) -> Balances, make: (int, Balances) -> NavRow)
    ensures |ScheduleRows(ds, b0, step, make)| == |ds|
  {
    if ds != [] {
      ScheduleRowsLength(ds[..|ds| - 1], b0, step, make);
    }
  }

  /** The balances after date `i` are those after date `i - 1` (or the initial ones) advanced by date `i`. */
  lemma {:induction false} RunningBalancesStep(ds: seq<int>, b0: Balances, step: (Balances, int) -> Balances, i: int)
    requires 0 <= i < |ds|
    ensures var bs := RunningBalances(ds, b0, step);
      bs[i] == step(if i == 0 then b0 else bs[i - 1], ds[i])
  {
    var n := |ds| - 1;
    var bs, before := RunningBalances(ds, b0, step), RunningBalances(ds[..n], b0, step);
    assert bs == before + [step(Latest(b0, before), ds[n])];
    if i < n {
      RunningBalancesStep(ds[..n], b0, step, i);
    }
  }

  /** Row `i` of the schedule is the row made for date `ds[i]` and the balances after it. */
  lemma {:induction false} ScheduleRowAt(ds: seq<int>, b0: Balances, step: (Balances, int) -> Balances, make: (int, Balances) -> NavRow, i: int)
    requires 0 <= i < |ds|
    ensures |ScheduleRows(ds, b0, step, make)| == |ds|
    ensures ScheduleRows(ds, b0, step, make)[i] == make(ds[i], RunningBalances(ds, b0, step)[i])
  {
    var n := |ds| - 1;
    ScheduleRowsLength(ds, b0, step, make);
    ScheduleRowsLength(ds[..n], b0, step, make);
    if i < n {
      ScheduleRowAt(ds[..n], b0, step, make, i);
      assert RunningBalances(ds, b0, step)[..n] == RunningBalances(ds[..n], b0, step);
      assert ds[..n][i] == ds[i];
    }
  }

  /** The fields of the row made for date `d` with balances `b`. */
  lemma MakeRowFields(sorted: seq<Row>, d: int, b: Balances, irr: real, power: Power)
    ensures var r := RowMaker(sorted, irr, power)(d, b);
      && r.date == d
      && r.loanReceivable == b.principal && r.cashOnHand == b.cash && r.accruedInterest == b.interest
      && r.netAssetValue == r.loanReceivable + r.cashOnHand + r.accruedInterest
      && r.netAssetPV == r.futurePV + r.cashOnHand
      && r.cashflowLocal == CashflowLocal(OnDate(sorted, d))
      && r.futurePV == PresentValue(sorted, d, irr, power)
  {
  }

  /** A selection of permuted rows is a permutation of the same selection. */
  lemma FilterPermutation(s: seq<Row>, t: seq<Row>, p: Row -> bool)
    requires multiset(s) == multiset(t)
    ensures multiset(Filter(s, p)) == multiset(Filter(t, p))
  {
    FilterMultiset(s, p);
    FilterMultiset(t, p);
    assert forall x :: multiset(Filter(s, p))[x] == multiset(Filter(t, p))[x];
  }

  /** Sorting the rows first changes neither a date's net cashflow nor a present value. */
  lemma DateColumnsPermutation(s: seq<Row>, t: seq<Row>, d: int, irr: real, power: Power)
    requires multiset(s) == multiset(t)
    ensures CashflowLocal(OnDate(s, d)) == CashflowLocal(OnDate(t, d))
    ensures PresentValue(s, d, irr, power) == PresentValue(t, d, irr, power)
  {
    GroupPermutation(s, t, RowDate, d);
    SumOfPermutation(OnDate(s, d), OnDate(t, d), LocalAmount);
    FilterPermutation(s, t, (r: Row) => r.date > d && r.amountLocal > 0.0);
    SumOfPermutation(FutureRows(s, d), FutureRows(t, d), Discounted(power, irr, d));
  }

  /** The balances a currency's schedule carries, one per distinct date. */
  function ScheduleBalances(currRows: seq<Row>): seq<Balances>
  {
    var sorted := SortBy(currRows, RowDate);
    RunningBalances(DistinctDates(sorted), InitialBalances(sorted), DateStep(sorted))
  }

  /**
   * The columns of a currency's schedule read from its rows as given
   * (unsorted): row `i` is the `i`-th distinct date, its net cashflow is the
   * sum of that date's amounts and its present value is the discounted sum of
   * the later positive amounts.
   */
  lemma ScheduleInputs(currRows: seq<Row>, irr: real, power: Power)
    ensures var s, ds := Schedule(currRows, irr, power), DistinctDates(currRows);
      && |s| == |ds|
      && (forall i :: 0 <= i < |ds| ==> s[i].date == ds[i])
      && (forall i :: 0 <= i < |ds| ==> s[i].cashflowLocal == SumOf(OnDate(currRows, ds[i]), LocalAmount))
      && (forall i :: 0 <= i < |ds| ==> s[i].futurePV == PresentValue(currRows, ds[i], irr, power))
  {
    var sorted := SortBy(currRows, RowDate);
    var ds, b0, step, make := DistinctDates(sorted), InitialBalances(sorted), DateStep(sorted), RowMaker(sorted, irr, power);
    DistinctDatesPermutation(sorted, currRows);
    ScheduleRowsLength(ds, b0, step, make);
    forall i | 0 <= i < |ds|
      ensures var r := ScheduleRows(ds, b0, step, make)[i];
        && r.date == ds[i]
        && r.cashflowLocal == SumOf(OnDate(currRows, ds[i]), LocalAmount)
        && r.futurePV == PresentValue(currRows, ds[i], irr, power)
    {
      ScheduleRowAt(ds, b0, step, make, i);
      MakeRowFields(sorted, ds[i], RunningBalances(ds, b0, step)[i], irr, power);
      DateColumnsPermutation(sorted, currRows, ds[i], irr, power);
    }
  }

  /**
   * The balance columns of a currency's schedule: row `i` carries the
   * balances after its date; NAV is the sum of the three balances and NAPV
   * the present value plus the cash on hand.
   */
  lemma ScheduleValues(currRows: seq<Row>, irr: real, power: Power)
    ensures var s, bs := Schedule(currRows, irr, power), ScheduleBalances(currRows);
      && |s| == |bs|
      && (forall i :: 0 <= i < |s| ==>
            s[i].loanReceivable == bs[i].principal && s[i].cashOnHand == bs[i].cash && s[i].accruedInterest == bs[i].interest)
      && (forall i :: 0 <= i < |s| ==> s[i].netAssetValue == s[i].loanReceivable + s[i].cashOnHand + s[i].accruedInterest)
      && (forall i :: 0 <= i < |s| ==> s[i].netAssetPV == s[i].futurePV + s[i].cashOnHand)
  {
    var sorted := SortBy(currRows, RowDate);
    var ds, b0, step, make := DistinctDates(sorted), InitialBalances(sorted), DateStep(sorted), RowMaker(sorted, irr, power);
    ScheduleRowsLength(ds, b0, step, make);
    forall i | 0 <= i < |ds|
      ensures var r, b := ScheduleRows(ds, b0, step, make)[i], RunningBalances(ds, b0, step)[i];
        && r.loanReceivable == b.principal && r.cashOnHand == b.cash && r.accruedInterest == b.interest
        && r.netAssetValue == r.loanReceivable + r.cashOnHand + r.accruedInterest
        && r.netAssetPV == r.futurePV + r.cashOnHand
    {
      ScheduleRowAt(ds, b0, step, make, i);
      MakeRowFields(sorted, ds[i], RunningBalances(ds, b0, step)[i], irr, power);
    }
  }

  /** The date column of a currency's schedule is the list of its distinct dates. */
  lemma ScheduleDates(currRows: seq<Row>, irr: real, power: Power)
    ensures |Schedule(currRows, irr, power)| == |DistinctDates(currRows)|
    ensures forall i :: 0 <= i < |DistinctDates(currRows)| ==> Schedule(currRows, irr, power)[i].date == DistinctDates(currRows)[i]
  {
    var sorted := SortBy(currRows, RowDate);
    var ds, b0, step, make := DistinctDates(sorted), InitialBalances(sorted), DateStep(sorted), RowMaker(sorted, irr, power);
    DistinctDatesPermutation(sorted, currRows);
    ScheduleRowsLength(ds, b0, step, make);
    forall i | 0 <= i < |ds| ensures ScheduleRows(ds, b0, step, make)[i].date == ds[i] {
      ScheduleRowAt(ds, b0, step, make, i);
    }
  }

  /**
   * One schedule row per distinct date of the currency's rows, in strictly
   * ascending date order.
   */
  lemma ScheduleShape(currRows: seq<Row>, irr: real, power: Power)
    ensures var s := Schedule(currRows, irr, power);
      && (forall i, j :: 0 <= i < j < |s| ==> s[i].date < s[j].date)
      && (forall i :: 0 <= i < |s| ==> HasRowOn(currRows, s[i].date))
      && (forall r :: r in currRows ==> exists i :: 0 <= i < |s| && s[i].date == r.date)
  {
    ScheduleDates(currRows, irr, power);
    DistinctDatesSpec(currRows);
    DateColumnShape(Schedule(currRows, irr, power), DistinctDates(currRows), currRows);
  }

  /** Rows dated by strictly ascending dates that are exactly the dates of `rows`. */
  lemma DateColumnShape(s: seq<NavRow>, ds: seq<int>, rows: seq<Row>)
    requires |s| == |ds| && forall i :: 0 <= i < |ds| ==> s[i].date == ds[i]
    requires forall i, j :: 0 <= i < j < |ds| ==> ds[i] < ds[j]
    requires forall d :: d in ds <==> exists r :: r in rows && r.date == d
    ensures forall i, j :: 0 <= i < j < |s| ==> s[i].date < s[j].date
    ensures forall i :: 0 <= i < |s| ==> HasRowOn(rows, s[i].date)
    ensures forall r :: r in rows ==> exists i :: 0 <= i < |s| && s[i].date == r.date
  {
    forall r | r in rows ensures exists i :: 0 <= i < |s| && s[i].date == r.date {
      assert r.date in ds;
      var i :| 0 <= i < |ds| && ds[i] == r.date;
      assert s[i].date == r.date;
    }
    forall i | 0 <= i < |s| ensures HasRowOn(rows, s[i].date) {
      assert ds[i] in ds;
    }
  }

  /** Some row of `rows` is dated `d`. */
  ghost predicate HasRowOn(rows: seq<Row>, d: int)
  {
    exists r :: r in rows && r.date == d
  }

  // ---------------------------------------------------------------------
  // The running balances
  // ---------------------------------------------------------------------

  /** Outstanding principal never goes negative. */
  lemma {:induction false} LoanFoldNonNegative(principal: real, rows: seq<Row>)
    requires principal >= 0.0
    ensures LoanFold(principal, rows) >= 0.0
  {
    if rows != [] {
      LoanFoldNonNegative(principal, rows[..|rows| - 1]);
    }
  }

  /** One date's update: principal stays non-negative, cash does not fall, interest falls but stays non-negative. */
  lemma AdvanceBounds(b: Balances, rowsOnDate: seq<Row>)
    requires b.principal >= 0.0
    ensures Advance(b, rowsOnDate).principal >= 0.0
    ensures Advance(b, rowsOnDate).cash >= b.cash
    ensures b.interest >= 0.0 ==> 0.0 <= Advance(b, rowsOnDate).interest <= b.interest
  {
    LoanFoldNonNegative(b.principal, rowsOnDate);
  }

  /**
   * A date update that keeps a non-negative principal non-negative, never
   * lowers the cash, and lowers a non-negative interest balance without
   * taking it below 0.
   */
  ghost predicate KeepsBounds(step: (Balances, int) -> Balances)
  {
    forall b: Balances, d: int :: KeepsBoundsAt(step, b, d)
  }

  /** The bounds of `KeepsBounds` for one balance and one date. */
  ghost predicate KeepsBoundsAt(step: (Balances, int) -> Balances, b: Balances, d: int)
  {
    b.principal >= 0.0 ==>
      && step(b, d).principal >= 0.0
      && step(b, d).cash >= b.cash
      && (b.interest >= 0.0 ==> 0.0 <= step(b, d).interest <= b.interest)
  }

  /** The schedule's date update keeps the bounds. */
  lemma DateStepKeepsBounds(sorted: seq<Row>)
    ensures KeepsBounds(DateStep(sorted))
  {
    forall b: Balances, d: int ensures KeepsBoundsAt(DateStep(sorted), b, d) {
      if b.principal >= 0.0 {
        AdvanceBounds(b, OnDate(sorted, d));
      }
    }
  }

  /**
   * Along the dates, from a non-negative principal: principal stays
   * non-negative and cash never falls; from a non-negative interest balance,
   * interest never rises and never goes negative.
   */
  lemma {:induction false} BalancesMove(ds: seq<int>, b0: Balances, step: (Balances, int) -> Balances, i: int, j: int)
    requires 0 <= i <= j < |ds|
    requires b0.principal >= 0.0 && KeepsBounds(step)
    ensures var bs := RunningBalances(ds, b0, step);
      && bs[j].principal >= 0.0
      && b0.cash <= bs[i].cash <= bs[j].cash
      && (b0.interest >= 0.0 ==> 0.0 <= bs[j].interest <= bs[i].interest <= b0.interest)
  {
    var bs := RunningBalances(ds, b0, step);
    RunningBalancesStep(ds, b0, step, j);
    var before := if j == 0 then b0 else bs[j - 1];
    if j > 0 {
      BalancesMove(ds, b0, step, if i == j then j - 1 else i, j - 1);
    }
    assert KeepsBoundsAt(step, before, ds[j]);
  }

  /** The interest total does not depend on the order of the rows. */
  lemma TypeSumPermutation(s: seq<Row>, t: seq<Row>, ty: string)
    requires multiset(s) == multiset(t)
    ensures TypeSum(s, ty) == TypeSum(t, ty)
  {
    FilterPermutation(s, t, (r: Row) => r.cashflowType == ty);
    SumOfPermutation(OfType(s, ty), OfType(t, ty), LocalAmount);
  }

  /**
   * In a currency's schedule the loan receivable is never negative and the
   * cash on hand is never negative and never falls from one date to the next.
   */
  lemma ScheduleCashAndLoan(currRows: seq<Row>)
    ensures var bs := ScheduleBalances(currRows);
      forall i, j :: 0 <= i <= j < |bs| ==> bs[j].principal >= 0.0 && 0.0 <= bs[i].cash <= bs[j].cash
  {
    var sorted := SortBy(currRows, RowDate);
    DateStepKeepsBounds(sorted);
    forall i, j | 0 <= i <= j < |ScheduleBalances(currRows)|
      ensures var bs := ScheduleBalances(currRows);
        bs[j].principal >= 0.0 && 0.0 <= bs[i].cash <= bs[j].cash
    {
      BalancesMove(DistinctDates(sorted), InitialBalances(sorted), DateStep(sorted), i, j);
    }
  }

  /**
   * When the currency's interest rows add up to a non-negative total, the
   * accrued interest starts at that total, never rises and never goes negative.
   */
  lemma ScheduleInterest(currRows: seq<Row>)
    requires TypeSum(currRows, Interest) >= 0.0
    ensures var bs := ScheduleBalances(currRows);
      forall i, j :: 0 <= i <= j < |bs| ==> 0.0 <= bs[j].interest <= bs[i].interest <= TypeSum(currRows, Interest)
  {
    var sorted := SortBy(currRows, RowDate);
    TypeSumPermutation(sorted, currRows, Interest);
    DateStepKeepsBounds(sorted);
    forall i, j | 0 <= i <= j < |ScheduleBalances(currRows)|
      ensures var bs := ScheduleBalances(currRows);
        0.0 <= bs[j].interest <= bs[i].interest <= TypeSum(currRows, Interest)
    {
      BalancesMove(DistinctDates(sorted), InitialBalances(sorted), DateStep(sorted), i, j);
    }
  }

  // ---------------------------------------------------------------------
  // Present values and cashflow totals
  // ---------------------------------------------------------------------

  /** The last distinct date is the latest date of all. */
  lemma LastDistinctDate(rows: seq<Row>)
    requires rows != []
    ensures |DistinctDates(rows)| > 0
    ensures forall r :: r in rows ==> r.date <= DistinctDates(rows)[|DistinctDates(rows)| - 1]
  {
    var ds := DistinctDates(rows);
    DistinctDatesSpec(rows);
    assert rows[0].date in ds;
    forall r | r in rows ensures r.date <= ds[|ds| - 1] {
      assert r.date in ds;
    }
  }

  /** Nothing dated after `d`: the present value at `d` is 0. */
  lemma PresentValueNothingLater(rows: seq<Row>, d: int, irr: real, power: Power)
    requires forall r :: r in rows ==> r.date <= d
    ensures PresentValue(rows, d, irr, power) == 0.0
  {
    FilterNone(rows, (r: Row) => r.date > d && r.amountLocal > 0.0);
  }

  /** On the last date nothing is left to come, so the present value of future cashflows is 0. */
  lemma LastPresentValueZero(currRows: seq<Row>, irr: real, power: Power)
    requires currRows != []
    ensures var s := Schedule(currRows, irr, power);
      |s| > 0 && s[|s| - 1].futurePV == 0.0
  {
    var ds := DistinctDates(currRows);
    ScheduleInputs(currRows, irr, power);
    LastDistinctDate(currRows);
    PresentValueNothingLater(currRows, ds[|ds| - 1], irr, power);
  }

  /**
   * With a positive power and an IRR above -100%, every present value in the
   * schedule is non-negative, and positive exactly when a positive amount is
   * still to come after that date.
   */
  lemma PresentValuesSign(currRows: seq<Row>, irr: real, power: Power)
    requires PositivePower(power) && irr > -1.0
    ensures var s := Schedule(currRows, irr, power);
      forall i :: 0 <= i < |s| ==>
        && s[i].futurePV >= 0.0
        && (s[i].futurePV > 0.0 <==> exists r :: r in currRows && r.date > s[i].date && r.amountLocal > 0.0)
  {
    var s, ds := Schedule(currRows, irr, power), DistinctDates(currRows);
    ScheduleInputs(currRows, irr, power);
    forall i | 0 <= i < |s|
      ensures s[i].futurePV >= 0.0
      ensures s[i].futurePV > 0.0 <==> exists r :: r in currRows && r.date > s[i].date && r.amountLocal > 0.0
    {
      PresentValueSign(currRows, ds[i], irr, power);
    }
  }

  /**
   * With a positive power and an IRR above -100%, the net asset present value
   * of every date is at least the cash on hand, which is non-negative; it
   * exceeds the cash exactly when a positive amount is still to come, so on
   * the last date it is the cash on hand alone.
   */
  lemma ScheduleNetAssetPV(currRows: seq<Row>, irr: real, power: Power)
    requires PositivePower(power) && irr > -1.0
    ensures var s := Schedule(currRows, irr, power);
      && (forall i :: 0 <= i < |s| ==> s[i].netAssetPV >= s[i].cashOnHand >= 0.0)
      && (forall i :: 0 <= i < |s| ==>
            (s[i].netAssetPV > s[i].cashOnHand <==> exists r :: r in currRows && r.date > s[i].date && r.amountLocal > 0.0))
      && (|s| > 0 ==> s[|s| - 1].netAssetPV == s[|s| - 1].cashOnHand)
  {
    var s, bs := Schedule(currRows, irr, power), ScheduleBalances(currRows);
    ScheduleValues(currRows, irr, power);
    ScheduleCashAndLoan(currRows);
    PresentValuesSign(currRows, irr, power);
    forall i | 0 <= i < |s| ensures s[i].cashOnHand >= 0.0 {
      assert bs[i].cash >= 0.0;
    }
    if currRows != [] {
      LastPresentValueZero(currRows, irr, power);
    } else {
      ScheduleDates(currRows, irr, power);
      DistinctDatesSpec(currRows);
      assert |DistinctDates(currRows)| == 0;
    }
  }

  function CashflowOf(n: NavRow): real { n.cashflowLocal }

  /** The net cashflow column adds up to the currency's total local amount: no row is lost or counted twice. */
  lemma CashflowColumnTotal(currRows: seq<Row>, irr: real, power: Power)
    ensures SumOf(Schedule(currRows, irr, power), CashflowOf) == SumOf(currRows, LocalAmount)
  {
    var s, ds := Schedule(currRows, irr, power), DistinctDates(currRows);
    ScheduleInputs(currRows, irr, power);
    DistinctDatesSpec(currRows);
    SumOfPositional(s, ds, CashflowOf, GroupTotal(currRows, RowDate, LocalAmount));
    forall r | r in currRows ensures RowDate(r) in ds {
    }
    GroupSumsCover(ds, currRows, RowDate, LocalAmount);
  }

  // ---------------------------------------------------------------------
  // Loan receivable
  // ---------------------------------------------------------------------

  /** The amount a row adds to the principal: the absolute amount of a drawdown. */
  function Drawn(r: Row): real { if IsDrawdown(r) then -r.amountLocal else 0.0 }

  /** The amount a row repays: the amount of a positive principal repayment. */
  function Repaid(r: Row): real { if IsRepayment(r) then r.amountLocal else 0.0 }

  /** The rows that can move the principal. */
  predicate MovesPrincipal(r: Row) { IsDrawdown(r) || IsRepayment(r) }

  /** Only drawdowns and repayments move the principal; every other row is skipped. */
  lemma {:induction false} LoanFoldIgnoresOthers(principal: real, rows: seq<Row>)
    ensures LoanFold(principal, rows) == LoanFold(principal, Filter(rows, MovesPrincipal))
  {
    if rows != [] {
      var init, last := rows[..|rows| - 1], rows[|rows| - 1];
      var kept := Filter(init, MovesPrincipal);
      LoanFoldIgnoresOthers(principal, init);
      if MovesPrincipal(last) {
        assert Filter(rows, MovesPrincipal) == kept + [last];
        assert (kept + [last])[..|kept|] == kept;
      } else {
        assert Filter(rows, MovesPrincipal) == kept;
      }
    }
  }

  /**
   * While the principal covers every repayment still to come on the date, no
   * clamping happens: the principal moves by the drawdowns minus the repayments.
   */
  lemma {:induction false} LoanFoldUnclamped(principal: real, rows: seq<Row>)
    requires principal >= SumOf(rows, Repaid)
    ensures LoanFold(principal, rows) == principal + SumOf(rows, Drawn) - SumOf(rows, Repaid)
  {
    if rows != [] {
      var init, last := rows[..|rows| - 1], rows[|rows| - 1];
      assert forall x :: x in init ==> x in rows;
      SumOfNonNegative(init, Drawn);
      LoanFoldUnclamped(principal, init);
    }
  }

  // ---------------------------------------------------------------------
  // When the net asset value is constant
  // ---------------------------------------------------------------------

  /** The positive amount a row brings in as cash. */
  function Received(r: Row): real { if r.amountLocal > 0.0 then r.amountLocal else 0.0 }

  /** The amount of an interest row. */
  function InterestPaid(r: Row): real { if r.cashflowType == Interest then r.amountLocal else 0.0 }

  /** A row of a plain loan: a drawdown paid out, or interest or principal received. */
  predicate ContractRow(r: Row)
  {
    IsDrawdown(r) || IsRepayment(r) || (r.cashflowType == Interest && r.amountLocal > 0.0)
  }

  /** The total of `f` over the first `m` dates of `ds`, date by date. */
  function Through(s: seq<Row>, ds: seq<int>, f: Row -> real, m: int): real
    requires 0 <= m <= |ds|
  {
    SumOf(ds[..m], GroupTotal(s, RowDate, f))
  }

  /** One date of a plain loan, while the principal covers the date's repayments and the interest balance its interest. */
  lemma AdvanceContract(b: Balances, rows: seq<Row>)
    requires forall r :: r in rows ==> ContractRow(r)
    requires b.principal >= SumOf(rows, Repaid)
    requires SumOf(rows, InterestPaid) <= b.interest
    ensures Advance(b, rows) == Balances(
      b.principal + SumOf(rows, Drawn) - SumOf(rows, Repaid),
      b.cash + SumOf(rows, Received),
      b.interest - SumOf(rows, InterestPaid))
  {
    LoanFoldUnclamped(b.principal, rows);
    CashReceived(b.cash, rows);
    InterestReceived(b.interest, rows);
  }

  /** The cash on hand grows by the positive amounts of the date. */
  lemma CashReceived(cash: real, rows: seq<Row>)
    ensures CashOnHand(cash, rows) == cash + SumOf(rows, Received)
  {
    SumOfFilter(rows, (r: Row) => r.amountLocal > 0.0, LocalAmount, Received);
  }

  /** The amount a row pays out, as a negative number; 0 for money received. */
  function Outflow(r: Row): real { if r.amountLocal < 0.0 then r.amountLocal else 0.0 }

  /**
   * The net cashflow of a date is the money received plus the (negative)
   * money paid out, and it does not depend on the order of the date's rows.
   */
  lemma CashflowLocalNet(rows: seq<Row>, reordered: seq<Row>)
    requires multiset(rows) == multiset(reordered)
    ensures CashflowLocal(rows) == SumOf(rows, Received) + SumOf(rows, Outflow)
    ensures CashflowLocal(rows) == CashflowLocal(reordered)
  {
    SumOfAdd(rows, LocalAmount, Received, Outflow);
    SumOfPermutation(rows, reordered, LocalAmount);
  }

  /** The accrued interest falls by the interest of a plain loan's date while it covers it. */
  lemma InterestReceived(interest: real, rows: seq<Row>)
    requires forall r :: r in rows ==> ContractRow(r)
    requires SumOf(rows, InterestPaid) <= interest
    ensures AccruedInterest(interest, rows) == interest - SumOf(rows, InterestPaid)
  {
    SumOfFilter(rows, (r: Row) => r.cashflowType == Interest, LocalAmount, InterestPaid);
    SumOfNonNegative(rows, InterestPaid);
  }

  /** The interest of the first `m` dates is at most the whole interest of a plain loan. */
  lemma InterestBound(s: seq<Row>, ds: seq<int>, m: int)
    requires Distinct(ds) && forall x :: x in s ==> x.date in ds
    requires forall x :: x in s ==> ContractRow(x)
    requires 0 <= m <= |ds|
    ensures Through(s, ds, InterestPaid, m) <= SumOf(s, InterestPaid)
  {
    var g := GroupTotal(s, RowDate, InterestPaid);
    GroupSumsCover(ds, s, RowDate, InterestPaid);
    assert ds == ds[..m] + ds[m..];
    SumOfConcat(ds[..m], ds[m..], g);
    forall d | d in ds[m..] ensures g(d) >= 0.0 {
      SumOfNonNegative(Group(s, RowDate, d), InterestPaid);
    }
    SumOfNonNegative(ds[m..], g);
  }

  /** One more date adds that date's rows. */
  lemma ThroughStep(s: seq<Row>, ds: seq<int>, k: int, f: Row -> real)
    requires 0 <= k < |ds|
    ensures Through(s, ds, f, k + 1) == Through(s, ds, f, k) + SumOf(OnDate(s, ds[k]), f)
  {
    SumOfPrefixStep(ds, k, GroupTotal(s, RowDate, f));
  }

  /** The balances of the closed form after the first `m` dates of `ds`. */
  function ClosedForm(s: seq<Row>, ds: seq<int>, m: int): Balances
    requires 0 <= m <= |ds|
  {
    Balances(
      Through(s, ds, Drawn, m) - Through(s, ds, Repaid, m),
      Through(s, ds, Received, m),
      SumOf(s, InterestPaid) - Through(s, ds, InterestPaid, m))
  }

  /** The rows of date `k` carry the closed form from `k` dates to `k + 1`. */
  lemma ClosedFormStep(s: seq<Row>, ds: seq<int>, k: int)
    requires 0 <= k < |ds|
    requires forall x :: x in OnDate(s, ds[k]) ==> ContractRow(x)
    requires Through(s, ds, Repaid, k + 1) <= Through(s, ds, Drawn, k)
    requires Through(s, ds, InterestPaid, k + 1) <= SumOf(s, InterestPaid)
    ensures Advance(ClosedForm(s, ds, k), OnDate(s, ds[k])) == ClosedForm(s, ds, k + 1)
  {
    ClosedFormPrincipal(s, ds, k);
    ClosedFormCash(s, ds, k);
    ClosedFormInterest(s, ds, k);
  }

  lemma ClosedFormPrincipal(s: seq<Row>, ds: seq<int>, k: int)
    requires 0 <= k < |ds|
    requires Through(s, ds, Repaid, k + 1) <= Through(s, ds, Drawn, k)
    ensures LoanFold(ClosedForm(s, ds, k).principal, OnDate(s, ds[k])) == ClosedForm(s, ds, k + 1).principal
  {
    ThroughStep(s, ds, k, Drawn);
    ThroughStep(s, ds, k, Repaid);
    LoanFoldUnclamped(ClosedForm(s, ds, k).principal, OnDate(s, ds[k]));
  }

  lemma ClosedFormCash(s: seq<Row>, ds: seq<int>, k: int)
    requires 0 <= k < |ds|
    ensures CashOnHand(ClosedForm(s, ds, k).cash, OnDate(s, ds[k])) == ClosedForm(s, ds, k + 1).cash
  {
    ThroughStep(s, ds, k, Received);
    CashReceived(ClosedForm(s, ds, k).cash, OnDate(s, ds[k]));
  }

  lemma ClosedFormInterest(s: seq<Row>, ds: seq<int>, k: int)
    requires 0 <= k < |ds|
    requires forall x :: x in OnDate(s, ds[k]) ==> ContractRow(x)
    requires Through(s, ds, InterestPaid, k + 1) <= SumOf(s, InterestPaid)
    ensures AccruedInterest(ClosedForm(s, ds, k).interest, OnDate(s, ds[k])) == ClosedForm(s, ds, k + 1).interest
  {
    ThroughStep(s, ds, k, InterestPaid);
    InterestReceived(ClosedForm(s, ds, k).interest, OnDate(s, ds[k]));
  }

  /**
   * For a plain loan whose repayments up to each date never exceed what was
   * drawn before that date, the balances after date `k` are: drawn minus
   * repaid, everything received, and the interest not yet received.
   */
  lemma {:induction false} BalancesClosedForm(s: seq<Row>, ds: seq<int>, k: int)
    requires Distinct(ds) && forall x :: x in s ==> x.date in ds
    requires forall x :: x in s ==> ContractRow(x)
    requires forall j :: 0 <= j < |ds| ==> Through(s, ds, Repaid, j + 1) <= Through(s, ds, Drawn, j)
    requires 0 <= k < |ds|
    ensures RunningBalances(ds, Balances(0.0, 0.0, SumOf(s, InterestPaid)), DateStep(s))[k] == ClosedForm(s, ds, k + 1)
  {
    var b0 := Balances(0.0, 0.0, SumOf(s, InterestPaid));
    RunningBalancesStep(ds, b0, DateStep(s), k);
    if k == 0 {
      assert ds[..0] == [];
      assert b0 == ClosedForm(s, ds, 0);
    } else {
      BalancesClosedForm(s, ds, k - 1);
    }
    assert forall x :: x in OnDate(s, ds[k]) ==> x in s;
    InterestBound(s, ds, k + 1);
    ClosedFormStep(s, ds, k);
  }

  /** Rows dated on or before `d`. */
  function DatedBy(d: int): Row -> bool { (r: Row) => r.date <= d }

  /** Rows dated strictly before `d`. */
  function DatedBefore(d: int): Row -> bool { (r: Row) => r.date < d }

  /**
   * Adding `f` date by date over the first `m` dates of `ds` is adding it over
   * the rows `q` keeps, when `q` keeps exactly the rows dated among those dates.
   */
  lemma CutSum(s: seq<Row>, ds: seq<int>, m: int, q: Row -> bool, f: Row -> real)
    requires Distinct(ds) && 0 <= m <= |ds|
    requires forall x :: x in s && q(x) ==> x.date in ds[..m]
    requires forall j, x: Row :: 0 <= j < m && x.date == ds[j] ==> q(x)
    ensures Through(s, ds, f, m) == SumOf(Filter(s, q), f)
  {
    var keys, cut := ds[..m], Filter(s, q);
    GroupSumsCover(keys, cut, RowDate, f);
    forall d | d in keys ensures GroupTotal(cut, RowDate, f)(d) == GroupTotal(s, RowDate, f)(d) {
      GroupOfFilter(s, q, RowDate, d);
    }
    SumOfCongruent(keys, GroupTotal(cut, RowDate, f), GroupTotal(s, RowDate, f));
  }

  /** Over ascending dates covering the rows, the first `k + 1` dates hold the rows dated by the `k`-th. */
  lemma CutBy(s: seq<Row>, ds: seq<int>, k: int, f: Row -> real)
    requires forall i, j :: 0 <= i < j < |ds| ==> ds[i] < ds[j]
    requires forall x :: x in s ==> x.date in ds
    requires 0 <= k < |ds|
    ensures Through(s, ds, f, k + 1) == SumOf(Filter(s, DatedBy(ds[k])), f)
  {
    forall x | x in s && DatedBy(ds[k])(x) ensures x.date in ds[..k + 1] {
      var j :| 0 <= j < |ds| && x.date == ds[j];
      assert ds[..k + 1][j] == ds[j];
    }
    CutSum(s, ds, k + 1, DatedBy(ds[k]), f);
  }

  /** Over ascending dates covering the rows, the first `k` dates hold the rows dated before the `k`-th. */
  lemma CutBefore(s: seq<Row>, ds: seq<int>, k: int, f: Row -> real)
    requires forall i, j :: 0 <= i < j < |ds| ==> ds[i] < ds[j]
    requires forall x :: x in s ==> x.date in ds
    requires 0 <= k < |ds|
    ensures Through(s, ds, f, k) == SumOf(Filter(s, DatedBefore(ds[k])), f)
  {
    forall x | x in s && DatedBefore(ds[k])(x) ensures x.date in ds[..k] {
      var j :| 0 <= j < |ds| && x.date == ds[j];
      assert ds[..k][j] == ds[j];
    }
    CutSum(s, ds, k, DatedBefore(ds[k]), f);
  }

  /**
   * Over the sorted rows, the first `k + 1` distinct dates hold the rows dated
   * by the `k`-th of them and the first `k` the rows dated before it.
   */
  lemma DateCuts(currRows: seq<Row>, k: int, f: Row -> real)
    requires 0 <= k < |DistinctDates(SortBy(currRows, RowDate))|
    ensures var sorted := SortBy(currRows, RowDate); var ds := DistinctDates(sorted);
      && Through(sorted, ds, f, k + 1) == SumOf(Filter(currRows, DatedBy(ds[k])), f)
      && Through(sorted, ds, f, k) == SumOf(Filter(currRows, DatedBefore(ds[k])), f)
  {
    var sorted := SortBy(currRows, RowDate);
    var ds := DistinctDates(sorted);
    DistinctDatesSpec(sorted);
    CutBy(sorted, ds, k, f);
    CutBefore(sorted, ds, k, f);
    FilterPermutation(sorted, currRows, DatedBy(ds[k]));
    SumOfPermutation(Filter(sorted, DatedBy(ds[k])), Filter(currRows, DatedBy(ds[k])), f);
    FilterPermutation(sorted, currRows, DatedBefore(ds[k]));
    SumOfPermutation(Filter(sorted, DatedBefore(ds[k])), Filter(currRows, DatedBefore(ds[k])), f);
  }

  /** The `k + 1`-th cut of the sorted rows, as a total over the rows dated by the `k`-th distinct date. */
  lemma DateCutBy(currRows: seq<Row>, k: int, f: Row -> real) returns (total: real)
    requires 0 <= k < |DistinctDates(SortBy(currRows, RowDate))|
    ensures var sorted := SortBy(currRows, RowDate); var ds := DistinctDates(sorted);
      && total == SumOf(Filter(currRows, DatedBy(ds[k])), f)
      && Through(sorted, ds, f, k + 1) == total
  {
    DateCuts(currRows, k, f);
    total := SumOf(Filter(currRows, DatedBy(DistinctDates(SortBy(currRows, RowDate))[k])), f);
  }

  /** What was drawn on or before `d`. */
  function DrawnBy(rows: seq<Row>, d: int): real { SumOf(Filter(rows, DatedBy(d)), Drawn) }

  /** What was drawn strictly before `d`. */
  function DrawnBefore(rows: seq<Row>, d: int): real { SumOf(Filter(rows, DatedBefore(d)), Drawn) }

  /** What was repaid on or before `d`. */
  function RepaidBy(rows: seq<Row>, d: int): real { SumOf(Filter(rows, DatedBy(d)), Repaid) }

  /** What was received on or before `d`. */
  function ReceivedBy(rows: seq<Row>, d: int): real { SumOf(Filter(rows, DatedBy(d)), Received) }

  /** What interest was received on or before `d`. */
  function InterestBy(rows: seq<Row>, d: int): real { SumOf(Filter(rows, DatedBy(d)), InterestPaid) }

  /** Every row is a drawdown, a principal repayment or a payment of interest. */
  predicate PlainLoan(rows: seq<Row>) { forall r :: r in rows ==> ContractRow(r) }

  /** What is repaid up to any date never exceeds what was drawn before that date. */
  predicate NeverOverRepaid(rows: seq<Row>)
  {
    forall r :: r in rows ==> RepaidBy(rows, r.date) <= DrawnBefore(rows, r.date)
  }

  /** Sorting keeps the rows, and their distinct dates cover them without repeats. */
  lemma SortedCover(currRows: seq<Row>)
    ensures var sorted := SortBy(currRows, RowDate); var ds := DistinctDates(sorted);
      && Distinct(ds) && (forall x :: x in sorted ==> x.date in ds)
      && (forall x :: x in sorted <==> x in currRows)
  {
    var sorted := SortBy(currRows, RowDate);
    DistinctDatesSpec(sorted);
    forall x ensures x in sorted <==> x in currRows {
      assert x in sorted <==> multiset(sorted)[x] > 0;
      assert x in currRows <==> multiset(currRows)[x] > 0;
    }
  }

  /** Up to the `j`-th date, the sorted rows repay no more than was drawn before it. */
  lemma SortedRepaidCovered(currRows: seq<Row>, j: int)
    requires NeverOverRepaid(currRows)
    requires 0 <= j < |DistinctDates(SortBy(currRows, RowDate))|
    ensures var sorted := SortBy(currRows, RowDate); var ds := DistinctDates(sorted);
      Through(sorted, ds, Repaid, j + 1) <= Through(sorted, ds, Drawn, j)
  {
    var sorted := SortBy(currRows, RowDate);
    var ds := DistinctDates(sorted);
    DistinctDatesSpec(sorted);
    SortedCover(currRows);
    assert ds[j] in ds;
    var r :| r in sorted && r.date == ds[j];
    assert RepaidBy(currRows, r.date) <= DrawnBefore(currRows, r.date);
    DateCuts(currRows, j, Repaid);
    DateCuts(currRows, j, Drawn);
  }

  /** The interest a plain loan starts with is the sum of its interest rows. */
  lemma InitialInterest(sorted: seq<Row>)
    ensures InitialBalances(sorted) == Balances(0.0, 0.0, SumOf(sorted, InterestPaid))
  {
    SumOfFilter(sorted, (r: Row) => r.cashflowType == Interest, LocalAmount, InterestPaid);
  }

  /** The closed form holds for the currency's balances over its sorted rows. */
  lemma SortedClosedForm(currRows: seq<Row>, k: int)
    requires PlainLoan(currRows) && NeverOverRepaid(currRows)
    requires 0 <= k < |DistinctDates(SortBy(currRows, RowDate))|
    ensures ScheduleBalances(currRows)[k] == ClosedForm(SortBy(currRows, RowDate), DistinctDates(SortBy(currRows, RowDate)), k + 1)
  {
    var sorted := SortBy(currRows, RowDate);
    var ds := DistinctDates(sorted);
    SortedCover(currRows);
    forall j | 0 <= j < |ds| ensures Through(sorted, ds, Repaid, j + 1) <= Through(sorted, ds, Drawn, j) {
      SortedRepaidCovered(currRows, j);
    }
    InitialInterest(sorted);
    BalancesClosedForm(sorted, ds, k);
  }

  /** The closed form over the sorted rows, read as totals over the rows as given. */
  lemma ClosedFormCuts(currRows: seq<Row>, k: int)
    requires 0 <= k < |DistinctDates(SortBy(currRows, RowDate))|
    ensures var sorted := SortBy(currRows, RowDate); var ds := DistinctDates(sorted);
      var d := ds[k];
      ClosedForm(sorted, ds, k + 1) == Balances(
        DrawnBy(currRows, d) - RepaidBy(currRows, d),
        ReceivedBy(currRows, d),
        TypeSum(currRows, Interest) - InterestBy(currRows, d))
  {
    var sorted := SortBy(currRows, RowDate);
    var ds := DistinctDates(sorted);
    var d := ds[k];
    var drawn := DateCutBy(currRows, k, Drawn);
    var repaid := DateCutBy(currRows, k, Repaid);
    var received := DateCutBy(currRows, k, Received);
    var interest := DateCutBy(currRows, k, InterestPaid);
    InterestTotal(currRows);
    ClosedFormOf(sorted, ds, k + 1, drawn, repaid, received, interest, TypeSum(currRows, Interest));
  }

  /** The closed form, given the totals it is made of. */
  lemma ClosedFormOf(s: seq<Row>, ds: seq<int>, m: int, drawn: real, repaid: real, received: real, interest: real, total: real)
    requires 0 <= m <= |ds|
    requires Through(s, ds, Drawn, m) == drawn && Through(s, ds, Repaid, m) == repaid
    requires Through(s, ds, Received, m) == received && Through(s, ds, InterestPaid, m) == interest
    requires SumOf(s, InterestPaid) == total
    ensures ClosedForm(s, ds, m) == Balances(drawn - repaid, received, total - interest)
  {
  }

  /** The interest paid over the sorted rows is the interest column's total. */
  lemma InterestTotal(currRows: seq<Row>)
    ensures SumOf(SortBy(currRows, RowDate), InterestPaid) == TypeSum(currRows, Interest)
  {
    var sorted := SortBy(currRows, RowDate);
    TypeSumPermutation(sorted, currRows, Interest);
    InitialInterest(sorted);
  }

  /**
   * For a plain loan never repaid beyond what was drawn, the balances after
   * the `k`-th distinct date are: drawn minus repaid, everything received,
   * and the interest still to come.
   */
  lemma BalancesPlainLoan(currRows: seq<Row>, k: int)
    requires PlainLoan(currRows) && NeverOverRepaid(currRows)
    requires 0 <= k < |DistinctDates(SortBy(currRows, RowDate))|
    ensures var d := DistinctDates(SortBy(currRows, RowDate))[k];
      ScheduleBalances(currRows)[k] == Balances(
        DrawnBy(currRows, d) - RepaidBy(currRows, d),
        ReceivedBy(currRows, d),
        TypeSum(currRows, Interest) - InterestBy(currRows, d))
  {
    var sorted := SortBy(currRows, RowDate);
    var ds := DistinctDates(sorted);
    SortedClosedForm(currRows, k);
    ClosedFormCuts(currRows, k);
  }

  /**
   * The schedule of a plain loan never repaid beyond what was drawn: on every
   * date the loan receivable is what was drawn less what was repaid by then,
   * the cash is everything received by then and the accrued interest is the
   * interest still to come.
   */
  lemma ScheduleClosedForm(currRows: seq<Row>, irr: real, power: Power)
    requires PlainLoan(currRows) && NeverOverRepaid(currRows)
    ensures var s := Schedule(currRows, irr, power);
      forall i :: 0 <= i < |s| ==>
        && s[i].loanReceivable == DrawnBy(currRows, s[i].date) - RepaidBy(currRows, s[i].date)
        && s[i].cashOnHand == ReceivedBy(currRows, s[i].date)
        && s[i].accruedInterest == TypeSum(currRows, Interest) - InterestBy(currRows, s[i].date)
  {
    DistinctDatesPermutation(SortBy(currRows, RowDate), currRows);
    ScheduleValues(currRows, irr, power);
    ScheduleDates(currRows, irr, power);
    forall i | 0 <= i < |Schedule(currRows, irr, power)|
      ensures var s := Schedule(currRows, irr, power);
        && s[i].loanReceivable == DrawnBy(currRows, s[i].date) - RepaidBy(currRows, s[i].date)
        && s[i].cashOnHand == ReceivedBy(currRows, s[i].date)
        && s[i].accruedInterest == TypeSum(currRows, Interest) - InterestBy(currRows, s[i].date)
    {
      BalancesPlainLoan(currRows, i);
    }
  }

  /** A plain loan's receipts are its repayments and its interest. */
  lemma ReceivedSplit(rows: seq<Row>, d: int)
    requires PlainLoan(rows)
    ensures ReceivedBy(rows, d) == RepaidBy(rows, d) + InterestBy(rows, d)
  {
    SumOfAdd(Filter(rows, DatedBy(d)), Received, Repaid, InterestPaid);
  }

  /**
   * The net asset value of a plain loan never repaid beyond what was drawn is,
   * on every date, what was drawn by then plus the whole interest: repayments
   * and interest received only turn loan and accrued interest into cash.
   */
  lemma NavPlainLoan(currRows: seq<Row>, irr: real, power: Power)
    requires PlainLoan(currRows) && NeverOverRepaid(currRows)
    ensures var s := Schedule(currRows, irr, power);
      forall i :: 0 <= i < |s| ==> s[i].netAssetValue == DrawnBy(currRows, s[i].date) + TypeSum(currRows, Interest)
  {
    ScheduleValues(currRows, irr, power);
    ScheduleClosedForm(currRows, irr, power);
    forall i | 0 <= i < |Schedule(currRows, irr, power)|
      ensures var s := Schedule(currRows, irr, power);
        s[i].netAssetValue == DrawnBy(currRows, s[i].date) + TypeSum(currRows, Interest)
    {
      ReceivedSplit(currRows, Schedule(currRows, irr, power)[i].date);
    }
  }

  /**
   * When, besides, every drawdown falls on the currency's first date, the net
   * asset value is the same on every date: the whole drawdown plus the whole
   * interest.
   */
  lemma NavConstant(currRows: seq<Row>, irr: real, power: Power)
    requires PlainLoan(currRows) && NeverOverRepaid(currRows)
    requires forall r, r' :: r in currRows && r' in currRows && IsDrawdown(r) ==> r.date <= r'.date
    ensures var s := Schedule(currRows, irr, power);
      forall i :: 0 <= i < |s| ==> s[i].netAssetValue == SumOf(currRows, Drawn) + TypeSum(currRows, Interest)
  {
    NavPlainLoan(currRows, irr, power);
    ScheduleShape(currRows, irr, power);
    forall i | 0 <= i < |Schedule(currRows, irr, power)|
      ensures DrawnBy(currRows, Schedule(currRows, irr, power)[i].date) == SumOf(currRows, Drawn)
    {
      var d := Schedule(currRows, irr, power)[i].date;
      SumOfFilter(currRows, DatedBy(d), Drawn, Drawn);
    }
  }

  /** The rows dated after `d1` and on or before `d2`. */
  function DatedBetween(d1: int, d2: int): Row -> bool { (r: Row) => d1 < r.date <= d2 }

  /** What is drawn by a later date is what was drawn by an earlier one plus what was drawn in between. */
  lemma DrawnSplit(rows: seq<Row>, d1: int, d2: int)
    requires d1 <= d2
    ensures DrawnBy(rows, d2) == DrawnBy(rows, d1) + SumOf(Filter(rows, DatedBetween(d1, d2)), Drawn)
    ensures SumOf(Filter(rows, DatedBetween(d1, d2)), Drawn) >= 0.0
  {
    var by2 := (r: Row) => if r.date <= d2 then Drawn(r) else 0.0;
    var by1 := (r: Row) => if r.date <= d1 then Drawn(r) else 0.0;
    var between := (r: Row) => if d1 < r.date <= d2 then Drawn(r) else 0.0;
    SumOfFilter(rows, DatedBy(d2), Drawn, by2);
    SumOfFilter(rows, DatedBy(d1), Drawn, by1);
    SumOfFilter(rows, DatedBetween(d1, d2), Drawn, between);
    SumOfAdd(rows, by2, by1, between);
    SumOfNonNegative(Filter(rows, DatedBetween(d1, d2)), Drawn);
  }

  /**
   * From one date of a plain loan's schedule to a later one, the net asset
   * value grows by exactly what was drawn in between, so it never falls.
   */
  lemma NavGrowsByDrawdowns(currRows: seq<Row>, irr: real, power: Power)
    requires PlainLoan(currRows) && NeverOverRepaid(currRows)
    ensures var s := Schedule(currRows, irr, power);
      forall i, j :: 0 <= i <= j < |s| ==>
        && s[j].netAssetValue == s[i].netAssetValue + SumOf(Filter(currRows, DatedBetween(s[i].date, s[j].date)), Drawn)
        && s[i].netAssetValue <= s[j].netAssetValue
  {
    NavPlainLoan(currRows, irr, power);
    ScheduleShape(currRows, irr, power);
    NavRowsGrow(Schedule(currRows, irr, power), currRows);
  }

  /** Ascending rows whose NAV is what was drawn by their date plus the whole interest grow by the drawdowns in between. */
  lemma NavRowsGrow(s: seq<NavRow>, currRows: seq<Row>)
    requires forall i :: 0 <= i < |s| ==> s[i].netAssetValue == DrawnBy(currRows, s[i].date) + TypeSum(currRows, Interest)
    requires forall i, j :: 0 <= i < j < |s| ==> s[i].date < s[j].date
    ensures forall i, j :: 0 <= i <= j < |s| ==>
      && s[j].netAssetValue == s[i].netAssetValue + SumOf(Filter(currRows, DatedBetween(s[i].date, s[j].date)), Drawn)
      && s[i].netAssetValue <= s[j].netAssetValue
  {
    forall i, j | 0 <= i <= j < |s|
      ensures && s[j].netAssetValue == s[i].netAssetValue + SumOf(Filter(currRows, DatedBetween(s[i].date, s[j].date)), Drawn)
              && s[i].netAssetValue <= s[j].netAssetValue
    {
      DrawnSplit(currRows, s[i].date, s[j].date);
    }
  }
}
