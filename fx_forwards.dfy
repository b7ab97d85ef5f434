/**
 * FX forward hedges proposed along the NAV schedules: for every currency
 * other than the fund's base currency, one forward sale of that currency per
 * schedule date whose exposure is large enough, delivered on the next date.
 */
module FxForwards {
  import opened Results
  import opened Ordering
  import opened Tables
  import opened Nav
  import NavProperties

  const Sell: string := "Sell"

  /** Exposures below this magnitude are not hedged. */
  const MinNotional: real := 0.01

  /** One proposed forward (`ForwardTrade`); dates are day numbers. */
  datatype ForwardTrade = ForwardTrade(
    currencyPair: string,
    tradeDate: int,
    deliveryDate: int,
    direction: string,
    notionalCurrency: string,
    notionalAmount: real)

  datatype FxError =
    | NoNavOnDate(date: int)   // `_nav_value_on_date` found no row on the date
    | NoFundRows               // the base currency is read from a fund table without rows

  function NavDate(n: NavRow): int { n.date }

  function Day(d: int): int { d }

  function Abs(x: real): real { if x < 0.0 then -x else x }

  /** The mask `nav_df["Date"] == d`. */
  function DatedOn(d: int): NavRow -> bool { (n: NavRow) => n.date == d }

  /** `_nav_value_on_date`: the NAV of the first schedule row dated `d`, or an error. */
  function NavValueOnDate(schedule: seq<NavRow>, d: int): Result<real, FxError>
  {
    var matches := Filter(schedule, DatedOn(d));
    if matches == [] then Failure(NoNavOnDate(d)) else Success(matches[0].netAssetValue)
  }

  /**
   * The lookup fails exactly when no schedule row has the date; otherwise it
   * gives the NAV of the first row that has it.
   */
  lemma NavValueOnDateSpec(schedule: seq<NavRow>, d: int)
    ensures var r := NavValueOnDate(schedule, d);
      && (r.Failure? <==> forall i :: 0 <= i < |schedule| ==> schedule[i].date != d)
      && (r.Failure? ==> r.error == NoNavOnDate(d))
      && (r.Success? ==>
            exists i :: 0 <= i < |schedule| && schedule[i].date == d && r.value == schedule[i].netAssetValue
              && forall j :: 0 <= j < i ==> schedule[j].date != d)
  {
    var matches := Filter(schedule, DatedOn(d));
    FilterFirst(schedule, DatedOn(d));
    assert forall i :: 0 <= i < |schedule| && schedule[i].date == d ==> schedule[i] in matches;
    assert matches != [] ==> matches[0] in matches;
  }

  /** The local amount of an Investment row, 0 for any other row. */
  function InvestedAmount(r: Row): real { if r.cashflowType == Investment then r.amountLocal else 0.0 }

  /**
   * `_get_principal_amount`: the magnitude of the summed Investment amounts
   * of `currency`, or 0 when the fund table lacks the currency and type
   * columns (`hasColumns` false).
   */
  function PrincipalAmount(fund: seq<Row>, hasColumns: bool, currency: string): (r: real)
    ensures r >= 0.0
    ensures !hasColumns ==> r == 0.0
  {
    if hasColumns then Abs(TypeSum(InCurrency(fund, currency), Investment)) else 0.0
  }

  /** Every date of every schedule, schedule by schedule (`all_dates`). */
  function AllDates(schedules: seq<(string, seq<NavRow>)>): seq<int>
  {
    if schedules == [] then []
    else AllDates(schedules[..|schedules| - 1]) + MapSeq(schedules[|schedules| - 1].1, NavDate)
  }

  /** The window filter `start_date <= d <= end_date`. */
  function Within(start: int, end: int): int -> bool { (d: int) => start <= d <= end }

  /** A hedged currency's trade dates (`nav_dates`): its schedule dates, ascending, within `[start, end]`. */
  function TradeDates(schedule: seq<NavRow>, start: int, end: int): seq<int>
  {
    Filter(SortBy(MapSeq(schedule, NavDate), Day), Within(start, end))
  }

  /**
   * What a proposal reads besides the schedules: the base currency, the
   * window of all dates, the fund table, and the two calendar and rounding
   * helpers the source takes from its libraries.
   */
  datatype Setting = Setting(
    base: string,
    start: int,
    end: int,
    fund: seq<Row>,
    hasColumns: bool,
    round2: real -> real,
    addMonths3: int -> int)

  /** The exposure on the `idx`-th trade date: the principal on the first, the NAV after it. */
  function Exposure(st: Setting, currency: string, schedule: seq<NavRow>, dates: seq<int>, idx: int): Result<real, FxError>
    requires 0 <= idx < |dates|
  {
    if idx == 0 then Success(PrincipalAmount(st.fund, st.hasColumns, currency))
    else NavValueOnDate(schedule, dates[idx])
  }

  /** The next trade date, or three months on capped at the last date overall. */
  function DeliveryDate(st: Setting, dates: seq<int>, idx: int): int
    requires 0 <= idx < |dates|
  {
    if idx + 1 < |dates| then dates[idx + 1]
    else
      var later := st.addMonths3(dates[idx]);
      if later <= st.end then later else st.end
  }

  /** An exposure worth hedging: positive and at least `MinNotional`. */
  predicate Hedged(amount: real)
  {
    !(amount <= 0.0 || Abs(amount) < MinNotional)
  }

  /** The trade proposed for the `idx`-th date: none, or a sale of the exposure. */
  function TradeAt(st: Setting, currency: string, schedule: seq<NavRow>, dates: seq<int>, idx: int): seq<ForwardTrade>
    requires 0 <= idx < |dates|
  {
    match Exposure(st, currency, schedule, dates, idx)
    case Failure(_) => []
    case Success(amount) =>
      if !Hedged(amount) then []
      else [ForwardTrade(currency + "/" + st.base, dates[idx], DeliveryDate(st, dates, idx), Sell, currency, st.round2(amount))]
  }

  /** The blocks `f(0)`, ..., `f(n - 1)` one after the other: a loop appending each step's trades. */
  function Blocks<T>(f: int -> seq<T>, n: nat): seq<T>
  {
    if n == 0 then [] else Blocks(f, n - 1) + f(n - 1)
  }

  /** Every element of the blocks comes from one of them. */
  lemma {:induction false} BlocksOrigin<T>(f: int -> seq<T>, n: nat)
    ensures forall t :: t in Blocks(f, n) ==> exists i :: 0 <= i < n && t in f(i)
  {
    if n > 0 {
      BlocksOrigin(f, n - 1);
    }
  }

  /** Every element of block `i` is among the blocks. */
  lemma {:induction false} BlocksKept<T>(f: int -> seq<T>, n: nat, i: int)
    requires 0 <= i < n
    ensures forall t :: t in f(i) ==> t in Blocks(f, n)
  {
    if i < n - 1 {
      BlocksKept(f, n - 1, i);
    }
  }

  /** The trades of each trade date of one currency; none outside its dates. */
  function DateTrades(st: Setting, currency: string, schedule: seq<NavRow>, dates: seq<int>): int -> seq<ForwardTrade>
  {
    (i: int) => if 0 <= i < |dates| then TradeAt(st, currency, schedule, dates, i) else []
  }

  /** The trades of one currency over its first `n` trade dates. */
  function CurrencyTrades(st: Setting, currency: string, schedule: seq<NavRow>, dates: seq<int>, n: int): seq<ForwardTrade>
    requires 0 <= n <= |dates|
  {
    Blocks(DateTrades(st, currency, schedule, dates), n)
  }

  /** The trades of the currency of one schedule; none for the base currency. */
  function ScheduleTrades(st: Setting, entry: (string, seq<NavRow>)): seq<ForwardTrade>
  {
    if entry.0 == st.base then []
    else
      var dates := TradeDates(entry.1, st.start, st.end);
      CurrencyTrades(st, entry.0, entry.1, dates, |dates|)
  }

  /** The trades of each schedule; none outside the schedules. */
  function ScheduleBlocks(st: Setting, schedules: seq<(string, seq<NavRow>)>): int -> seq<ForwardTrade>
  {
    (j: int) => if 0 <= j < |schedules| then ScheduleTrades(st, schedules[j]) else []
  }

  /** The trades of the first `k` schedules, in schedule order. */
  function HedgeTrades(st: Setting, schedules: seq<(string, seq<NavRow>)>, k: int): seq<ForwardTrade>
    requires 0 <= k <= |schedules|
  {
    Blocks(ScheduleBlocks(st, schedules), k)
  }

  /** The setting `propose_fx_trades` builds from a fund table with rows and some schedule dates. */
  function SettingOf(schedules: seq<(string, seq<NavRow>)>, fund: seq<Row>, hasColumns: bool,
                     round2: real -> real, addMonths3: int -> int): Setting
    requires fund != [] && AllDates(schedules) != []
  {
    var all := AllDates(schedules);
    Setting(fund[0].baseCurrency, MinOf(all), MaxOf(all), fund, hasColumns, round2, addMonths3)
  }

  /** `propose_fx_trades` for a fund table with rows: nothing when no schedule has a date. */
  function Proposals(schedules: seq<(string, seq<NavRow>)>, fund: seq<Row>, hasColumns: bool,
                     round2: real -> real, addMonths3: int -> int): seq<ForwardTrade>
    requires fund != []
  {
    if AllDates(schedules) == [] then []
    else HedgeTrades(SettingOf(schedules, fund, hasColumns, round2, addMonths3), schedules, |schedules|)
  }

  /** One more date appends that date's trade, if any. */
  lemma CurrencyTradesStep(st: Setting, currency: string, schedule: seq<NavRow>, dates: seq<int>, idx: int, amount: real)
    requires 0 <= idx < |dates|
    requires Exposure(st, currency, schedule, dates, idx) == Success(amount)
    ensures CurrencyTrades(st, currency, schedule, dates, idx + 1)
      == CurrencyTrades(st, currency, schedule, dates, idx)
        + if Hedged(amount)
          then [ForwardTrade(currency + "/" + st.base, dates[idx], DeliveryDate(st, dates, idx), Sell, currency, st.round2(amount))]
          else []
  {
  }

  /** One more schedule appends its currency's trades. */
  lemma HedgeTradesStep(st: Setting, schedules: seq<(string, seq<NavRow>)>, k: int, hedges: seq<ForwardTrade>)
    requires 0 <= k < |schedules|
    requires hedges == ScheduleTrades(st, schedules[k])
    ensures HedgeTrades(st, schedules, k + 1) == HedgeTrades(st, schedules, k) + hedges
  {
  }

  /** Every trade date is a date of the schedule it came from, so its NAV lookup succeeds. */
  lemma TradeDatesScheduled(schedule: seq<NavRow>, start: int, end: int)
    ensures var dates := TradeDates(schedule, start, end);
      forall idx :: 0 <= idx < |dates| ==> NavValueOnDate(schedule, dates[idx]).Success?
  {
    var dates := TradeDates(schedule, start, end);
    var column := MapSeq(schedule, NavDate);
    forall idx | 0 <= idx < |dates| ensures NavValueOnDate(schedule, dates[idx]).Success? {
      var d := dates[idx];
      assert d in dates;
      assert d in multiset(SortBy(column, Day));
      var i :| 0 <= i < |column| && column[i] == d;
      assert schedule[i].date == d;
      NavValueOnDateSpec(schedule, d);
    }
  }

  /** The first loop of `propose_fx_trades`: extends the list of dates schedule by schedule. */
  method CollectDates(schedules: seq<(string, seq<NavRow>)>) returns (allDates: seq<int>)
    ensures allDates == AllDates(schedules)
  {
    allDates := [];
    for k := 0 to |schedules|
      invariant allDates == AllDates(schedules[..k])
    {
      assert schedules[..k + 1][..k] == schedules[..k];
      allDates := allDates + MapSeq(schedules[k].1, NavDate);
    }
    assert schedules[..|schedules|] == schedules;
  }

  /**
   * The inner loop of `propose_fx_trades`: one currency's ascending trade
   * dates, each with a large enough exposure giving one sale.
   */
  method HedgeCurrency(st: Setting, currency: string, schedule: seq<NavRow>, navDates: seq<int>)
    returns (trades: seq<ForwardTrade>)
    requires forall idx :: 0 < idx < |navDates| ==> NavValueOnDate(schedule, navDates[idx]).Success?
    ensures trades == CurrencyTrades(st, currency, schedule, navDates, |navDates|)
  {
    trades := [];
    for idx := 0 to |navDates|
      invariant trades == CurrencyTrades(st, currency, schedule, navDates, idx)
    {
      var tradeDate := navDates[idx];
      var notional: real;
      if idx == 0 {
        notional := PrincipalAmount(st.fund, st.hasColumns, currency);
      } else {
        var looked := NavValueOnDate(schedule, tradeDate);
        notional := looked.value;
      }
      CurrencyTradesStep(st, currency, schedule, navDates, idx, notional);
      if !(notional <= 0.0 || Abs(notional) < MinNotional) {
        var delivery: int;
        if idx + 1 < |navDates| {
          delivery := navDates[idx + 1];
        } else {
          delivery := st.addMonths3(tradeDate);
          if delivery > st.end {
            delivery := st.end;
          }
        }
        trades := trades + [ForwardTrade(currency + "/" + st.base, tradeDate, delivery, Sell, currency, st.round2(notional))];
      }
    }
  }

  /**
   * `propose_fx_trades`: reads the base currency from the first fund row,
   * collects every schedule date, and walks the schedules in order, hedging
   * each currency but the base one.
   */
  method ProposeFxTrades(schedules: seq<(string, seq<NavRow>)>, fund: seq<Row>, hasColumns: bool,
                         round2: real -> real, addMonths3: int -> int)
    returns (r: Result<seq<ForwardTrade>, FxError>)
    ensures fund == [] <==> r.Failure?
    ensures r.Failure? ==> r.error == NoFundRows
    ensures r.Success? ==> r.value == Proposals(schedules, fund, hasColumns, round2, addMonths3)
  {
    if fund == [] {
      return Failure(NoFundRows);
    }
    var base := fund[0].baseCurrency;
    var allDates := CollectDates(schedules);
    if allDates == [] {
      return Success([]);
    }
    var st := Setting(base, MinOf(allDates), MaxOf(allDates), fund, hasColumns, round2, addMonths3);
    assert st == SettingOf(schedules, fund, hasColumns, round2, addMonths3);
    var trades: seq<ForwardTrade> := [];
    for k := 0 to |schedules|
      invariant trades == HedgeTrades(st, schedules, k)
    {
      var currency, schedule := schedules[k].0, schedules[k].1;
      var hedges: seq<ForwardTrade> := [];
      if currency != base {
        var navDates := TradeDates(schedule, st.start, st.end);
        TradeDatesScheduled(schedule, st.start, st.end);
        hedges := HedgeCurrency(st, currency, schedule, navDates);
      }
      HedgeTradesStep(st, schedules, k, hedges);
      trades := trades + hedges;
    }
    return Success(trades);
  }

  // ---------------------------------------------------------------------
  // Properties of the proposals
  // ---------------------------------------------------------------------

  /** Rounding to cents moves an amount by at most half a cent. */
  ghost predicate RoundsToCents(round2: real -> real)
  {
    forall x :: -0.005 <= round2(x) - x <= 0.005
  }

  /** Adding three months gives a later day. */
  ghost predicate MovesForward(addMonths3: int -> int)
  {
    forall d :: addMonths3(d) > d
  }

  /** What the trade proposed for the `idx`-th date carries. */
  lemma TradeAtFacts(st: Setting, c: string, schedule: seq<NavRow>, dates: seq<int>, idx: int)
    requires 0 <= idx < |dates|
    ensures |TradeAt(st, c, schedule, dates, idx)| <= 1
    ensures forall t :: t in TradeAt(st, c, schedule, dates, idx) ==>
      && t.currencyPair == c + "/" + st.base && t.direction == Sell && t.notionalCurrency == c
      && t.tradeDate == dates[idx] && t.deliveryDate == DeliveryDate(st, dates, idx)
      && Exposure(st, c, schedule, dates, idx).Success?
      && Hedged(Exposure(st, c, schedule, dates, idx).value)
      && t.notionalAmount == st.round2(Exposure(st, c, schedule, dates, idx).value)
  {
  }

  /** Every trade of a currency comes from one of its first `n` dates. */
  lemma CurrencyTradeOrigin(st: Setting, c: string, schedule: seq<NavRow>, dates: seq<int>, n: int)
    requires 0 <= n <= |dates|
    ensures forall t :: t in CurrencyTrades(st, c, schedule, dates, n) ==>
      exists idx :: 0 <= idx < n && t in TradeAt(st, c, schedule, dates, idx)
  {
    var f := DateTrades(st, c, schedule, dates);
    BlocksOrigin(f, n);
    forall t | t in CurrencyTrades(st, c, schedule, dates, n)
      ensures exists idx :: 0 <= idx < n && t in TradeAt(st, c, schedule, dates, idx)
    {
      var i :| 0 <= i < n && t in f(i);
      assert f(i) == TradeAt(st, c, schedule, dates, i);
    }
  }

  /** The trade of the `idx`-th date, if any, is among those of the first `n` dates. */
  lemma CurrencyTradeKept(st: Setting, c: string, schedule: seq<NavRow>, dates: seq<int>, n: int, idx: int)
    requires 0 <= idx < n <= |dates|
    ensures forall t :: t in TradeAt(st, c, schedule, dates, idx) ==> t in CurrencyTrades(st, c, schedule, dates, n)
  {
    var f := DateTrades(st, c, schedule, dates);
    BlocksKept(f, n, idx);
    assert f(idx) == TradeAt(st, c, schedule, dates, idx);
  }

  /** A schedule's block is empty for the base currency. */
  lemma ScheduleTradesBase(st: Setting, entry: (string, seq<NavRow>))
    ensures ScheduleTrades(st, entry) != [] ==> entry.0 != st.base
  {
  }

  /** Every proposed trade comes from a schedule of a currency other than the base one. */
  lemma HedgeTradeOrigin(st: Setting, schedules: seq<(string, seq<NavRow>)>, k: int)
    requires 0 <= k <= |schedules|
    ensures forall t :: t in HedgeTrades(st, schedules, k) ==>
      exists j :: 0 <= j < k && schedules[j].0 != st.base && t in ScheduleTrades(st, schedules[j])
  {
    var f := ScheduleBlocks(st, schedules);
    BlocksOrigin(f, k);
    forall t | t in HedgeTrades(st, schedules, k)
      ensures exists j :: 0 <= j < k && schedules[j].0 != st.base && t in ScheduleTrades(st, schedules[j])
    {
      var j :| 0 <= j < k && t in f(j);
      assert f(j) == ScheduleTrades(st, schedules[j]);
      ScheduleTradesBase(st, schedules[j]);
    }
  }

  /** A trade of one schedule's block: where it comes from and what it carries. */
  lemma ScheduleTradeFacts(st: Setting, entry: (string, seq<NavRow>), t: ForwardTrade)
    requires t in ScheduleTrades(st, entry)
    ensures entry.0 != st.base
    ensures t.currencyPair == entry.0 + "/" + st.base && t.direction == Sell && t.notionalCurrency == entry.0
    ensures var dates := TradeDates(entry.1, st.start, st.end);
      exists idx :: 0 <= idx < |dates| && t in TradeAt(st, entry.0, entry.1, dates, idx)
  {
    var dates := TradeDates(entry.1, st.start, st.end);
    CurrencyTradeOrigin(st, entry.0, entry.1, dates, |dates|);
    var idx :| 0 <= idx < |dates| && t in TradeAt(st, entry.0, entry.1, dates, idx);
    TradeAtFacts(st, entry.0, entry.1, dates, idx);
  }

  /**
   * No trade is proposed in the base currency (the first fund row's): each
   * sells a currency that has a schedule, quoted against the base currency.
   */
  lemma NoBaseCurrencyTrade(schedules: seq<(string, seq<NavRow>)>, fund: seq<Row>, hasColumns: bool,
                            round2: real -> real, addMonths3: int -> int)
    requires fund != []
    ensures forall t :: t in Proposals(schedules, fund, hasColumns, round2, addMonths3) ==>
      && t.notionalCurrency != fund[0].baseCurrency
      && t.currencyPair == t.notionalCurrency + "/" + fund[0].baseCurrency
      && t.direction == Sell
      && exists j :: 0 <= j < |schedules| && schedules[j].0 == t.notionalCurrency
  {
    if AllDates(schedules) != [] {
      var st := SettingOf(schedules, fund, hasColumns, round2, addMonths3);
      HedgeTradeOrigin(st, schedules, |schedules|);
      forall t | t in HedgeTrades(st, schedules, |schedules|)
        ensures && t.notionalCurrency != st.base && t.currencyPair == t.notionalCurrency + "/" + st.base
                && t.direction == Sell && exists j :: 0 <= j < |schedules| && schedules[j].0 == t.notionalCurrency
      {
        var j :| 0 <= j < |schedules| && schedules[j].0 != st.base && t in ScheduleTrades(st, schedules[j]);
        ScheduleTradeFacts(st, schedules[j], t);
      }
    }
  }

  /**
   * With a rounding that moves amounts by at most half a cent, every proposed
   * notional is positive: exposures below one cent are never hedged.
   */
  lemma NotionalsPositive(schedules: seq<(string, seq<NavRow>)>, fund: seq<Row>, hasColumns: bool,
                          round2: real -> real, addMonths3: int -> int)
    requires fund != [] && RoundsToCents(round2)
    ensures forall t :: t in Proposals(schedules, fund, hasColumns, round2, addMonths3) ==> t.notionalAmount > 0.0
  {
    if AllDates(schedules) != [] {
      var st := SettingOf(schedules, fund, hasColumns, round2, addMonths3);
      HedgeTradeOrigin(st, schedules, |schedules|);
      forall t | t in HedgeTrades(st, schedules, |schedules|) ensures t.notionalAmount > 0.0 {
        var j :| 0 <= j < |schedules| && schedules[j].0 != st.base && t in ScheduleTrades(st, schedules[j]);
        ScheduleTradeFacts(st, schedules[j], t);
        var dates := TradeDates(schedules[j].1, st.start, st.end);
        var idx :| 0 <= idx < |dates| && t in TradeAt(st, schedules[j].0, schedules[j].1, dates, idx);
        TradeAtFacts(st, schedules[j].0, schedules[j].1, dates, idx);
      }
    }
  }

  /** A date of any schedule is among all the dates. */
  lemma {:induction false} AllDatesMember(schedules: seq<(string, seq<NavRow>)>, j: int, i: int)
    requires 0 <= j < |schedules| && 0 <= i < |schedules[j].1|
    ensures schedules[j].1[i].date in AllDates(schedules)
  {
    var last := |schedules| - 1;
    if j == last {
      assert MapSeq(schedules[last].1, NavDate)[i] == schedules[j].1[i].date;
    } else {
      var prefix := schedules[..last];
      assert prefix[j] == schedules[j];
      AllDatesMember(prefix, j, i);
    }
  }

  /**
   * The window from the earliest to the latest date of all schedules keeps
   * every date, so a currency's trade dates are all its schedule dates,
   * ascending.
   */
  lemma WindowKeepsEveryDate(schedules: seq<(string, seq<NavRow>)>, j: int)
    requires 0 <= j < |schedules| && AllDates(schedules) != []
    ensures var all := AllDates(schedules);
      TradeDates(schedules[j].1, MinOf(all), MaxOf(all)) == SortBy(MapSeq(schedules[j].1, NavDate), Day)
  {
    var all := AllDates(schedules);
    var column := MapSeq(schedules[j].1, NavDate);
    var sorted := SortBy(column, Day);
    forall d | d in sorted ensures Within(MinOf(all), MaxOf(all))(d) {
      assert d in multiset(column);
      var i :| 0 <= i < |column| && column[i] == d;
      AllDatesMember(schedules, j, i);
    }
    FilterAll(sorted, Within(MinOf(all), MaxOf(all)));
  }

  /** A delivery date lies between its trade date and the last date, over ascending dates within the window. */
  lemma DeliveryBounds(st: Setting, dates: seq<int>, idx: int)
    requires 0 <= idx < |dates| && MovesForward(st.addMonths3)
    requires AscendingBy(dates, Day) && forall d :: d in dates ==> d <= st.end
    ensures dates[idx] <= DeliveryDate(st, dates, idx) <= st.end
  {
    assert dates[idx] in dates;
    if idx + 1 < |dates| {
      assert Day(dates[idx]) <= Day(dates[idx + 1]);
      assert dates[idx + 1] in dates;
    } else {
      assert st.addMonths3(dates[idx]) > dates[idx];
    }
  }

  /**
   * When three months on is always later, every trade is delivered no
   * earlier than it is struck and no later than the last date of all the
   * schedules.
   */
  lemma DeliveryInWindow(schedules: seq<(string, seq<NavRow>)>, fund: seq<Row>, hasColumns: bool,
                         round2: real -> real, addMonths3: int -> int)
    requires fund != [] && MovesForward(addMonths3)
    ensures forall t :: t in Proposals(schedules, fund, hasColumns, round2, addMonths3) ==>
      AllDates(schedules) != [] && t.tradeDate <= t.deliveryDate <= MaxOf(AllDates(schedules))
  {
    if AllDates(schedules) != [] {
      var st := SettingOf(schedules, fund, hasColumns, round2, addMonths3);
      HedgeTradeOrigin(st, schedules, |schedules|);
      forall t | t in HedgeTrades(st, schedules, |schedules|)
        ensures t.tradeDate <= t.deliveryDate <= st.end
      {
        var j :| 0 <= j < |schedules| && schedules[j].0 != st.base && t in ScheduleTrades(st, schedules[j]);
        ScheduleTradeFacts(st, schedules[j], t);
        var dates := TradeDates(schedules[j].1, st.start, st.end);
        var idx :| 0 <= idx < |dates| && t in TradeAt(st, schedules[j].0, schedules[j].1, dates, idx);
        TradeAtFacts(st, schedules[j].0, schedules[j].1, dates, idx);
        WindowKeepsEveryDate(schedules, j);
        DeliveryBounds(st, dates, idx);
      }
    }
  }

  /** Trade dates strictly ascend along the sequence. */
  ghost predicate DatesAscend(ts: seq<ForwardTrade>)
  {
    forall a, b :: 0 <= a < b < |ts| ==> ts[a].tradeDate < ts[b].tradeDate
  }

  /** Trade dates strictly ascend along the sequence within each notional currency. */
  ghost predicate DatesAscendPerCurrency(ts: seq<ForwardTrade>)
  {
    forall a, b :: 0 <= a < b < |ts| && ts[a].notionalCurrency == ts[b].notionalCurrency ==>
      ts[a].tradeDate < ts[b].tradeDate
  }

  /** Appending later-dated ascending trades keeps the dates ascending. */
  lemma DatesAscendConcat(init: seq<ForwardTrade>, tail: seq<ForwardTrade>)
    requires DatesAscend(init) && DatesAscend(tail)
    requires forall t, u :: t in init && u in tail ==> t.tradeDate < u.tradeDate
    ensures DatesAscend(init + tail)
  {
    var ts := init + tail;
    forall a, b | 0 <= a < b < |ts| ensures ts[a].tradeDate < ts[b].tradeDate {
      if b < |init| {
        assert ts[a] == init[a] && ts[b] == init[b];
      } else if |init| <= a {
        assert ts[a] == tail[a - |init|] && ts[b] == tail[b - |init|];
      } else {
        assert ts[a] == init[a] && ts[a] in init;
        assert ts[b] == tail[b - |init|] && ts[b] in tail;
      }
    }
  }

  /** Appending a block in other currencies keeps each currency's dates ascending. */
  lemma DatesAscendPerCurrencyConcat(init: seq<ForwardTrade>, block: seq<ForwardTrade>)
    requires DatesAscendPerCurrency(init) && DatesAscendPerCurrency(block)
    requires forall t, u :: t in init && u in block ==> t.notionalCurrency != u.notionalCurrency
    ensures DatesAscendPerCurrency(init + block)
  {
    var ts := init + block;
    forall a, b | 0 <= a < b < |ts|
      ensures ts[a].notionalCurrency == ts[b].notionalCurrency ==> ts[a].tradeDate < ts[b].tradeDate
    {
      if b < |init| {
        assert ts[a] == init[a] && ts[b] == init[b];
      } else if |init| <= a {
        assert ts[a] == block[a - |init|] && ts[b] == block[b - |init|];
      } else {
        assert ts[a] == init[a] && ts[a] in init;
        assert ts[b] == block[b - |init|] && ts[b] in block;
      }
    }
  }

  /** Over strictly ascending dates, one currency's trades have strictly ascending trade dates. */
  lemma {:induction false} CurrencyTradesAscend(st: Setting, c: string, schedule: seq<NavRow>, dates: seq<int>, n: int)
    requires 0 <= n <= |dates|
    requires StrictlyAscendingBy(dates, Day)
    ensures DatesAscend(CurrencyTrades(st, c, schedule, dates, n))
  {
    if n > 0 {
      var init := CurrencyTrades(st, c, schedule, dates, n - 1);
      var last := TradeAt(st, c, schedule, dates, n - 1);
      assert CurrencyTrades(st, c, schedule, dates, n) == init + last;
      CurrencyTradesAscend(st, c, schedule, dates, n - 1);
      CurrencyTradeOrigin(st, c, schedule, dates, n - 1);
      TradeAtFacts(st, c, schedule, dates, n - 1);
      forall t, u | t in init && u in last ensures t.tradeDate < u.tradeDate {
        var idx :| 0 <= idx < n - 1 && t in TradeAt(st, c, schedule, dates, idx);
        TradeAtFacts(st, c, schedule, dates, idx);
        assert Day(dates[idx]) < Day(dates[n - 1]);
      }
      DatesAscendConcat(init, last);
    }
  }

  /** Trades of different schedules are in different currencies when the schedule currencies are distinct. */
  lemma HedgeBlocksApart(st: Setting, schedules: seq<(string, seq<NavRow>)>, k: int)
    requires 0 < k <= |schedules|
    requires forall a, b :: 0 <= a < b < |schedules| ==> schedules[a].0 != schedules[b].0
    ensures forall t, u :: t in HedgeTrades(st, schedules, k - 1) && u in ScheduleTrades(st, schedules[k - 1]) ==>
      t.notionalCurrency != u.notionalCurrency
  {
    HedgeTradeOrigin(st, schedules, k - 1);
    forall t, u | t in HedgeTrades(st, schedules, k - 1) && u in ScheduleTrades(st, schedules[k - 1])
      ensures t.notionalCurrency != u.notionalCurrency
    {
      var j :| 0 <= j < k - 1 && schedules[j].0 != st.base && t in ScheduleTrades(st, schedules[j]);
      ScheduleTradeFacts(st, schedules[j], t);
      ScheduleTradeFacts(st, schedules[k - 1], u);
    }
  }

  /** A schedule's own trades ascend by date when its trade dates strictly ascend. */
  lemma ScheduleTradesAscend(st: Setting, entry: (string, seq<NavRow>))
    requires StrictlyAscendingBy(TradeDates(entry.1, st.start, st.end), Day)
    ensures DatesAscendPerCurrency(ScheduleTrades(st, entry))
  {
    if entry.0 != st.base {
      var dates := TradeDates(entry.1, st.start, st.end);
      CurrencyTradesAscend(st, entry.0, entry.1, dates, |dates|);
    }
  }

  /** Over distinct schedule currencies with strictly ascending trade dates, each currency's trades ascend. */
  lemma {:induction false} HedgeTradesAscend(st: Setting, schedules: seq<(string, seq<NavRow>)>, k: int)
    requires 0 <= k <= |schedules|
    requires forall a, b :: 0 <= a < b < |schedules| ==> schedules[a].0 != schedules[b].0
    requires forall j :: 0 <= j < |schedules| ==> StrictlyAscendingBy(TradeDates(schedules[j].1, st.start, st.end), Day)
    ensures DatesAscendPerCurrency(HedgeTrades(st, schedules, k))
  {
    if k > 0 {
      var init := HedgeTrades(st, schedules, k - 1);
      var block := ScheduleTrades(st, schedules[k - 1]);
      HedgeTradesAscend(st, schedules, k - 1);
      HedgeBlocksApart(st, schedules, k);
      ScheduleTradesAscend(st, schedules[k - 1]);
      HedgeTradesStep(st, schedules, k - 1, block);
      DatesAscendPerCurrencyConcat(init, block);
    }
  }

  /**
   * When the schedule currencies are distinct and no schedule repeats a date,
   * each currency's trades appear in strictly ascending trade-date order, so
   * there is at most one trade per currency and date.
   */
  lemma TradesAscendPerCurrency(schedules: seq<(string, seq<NavRow>)>, fund: seq<Row>, hasColumns: bool,
                                round2: real -> real, addMonths3: int -> int)
    requires fund != []
    requires forall a, b :: 0 <= a < b < |schedules| ==> schedules[a].0 != schedules[b].0
    requires forall j, a, b :: 0 <= j < |schedules| && 0 <= a < b < |schedules[j].1| ==>
      schedules[j].1[a].date != schedules[j].1[b].date
    ensures DatesAscendPerCurrency(Proposals(schedules, fund, hasColumns, round2, addMonths3))
  {
    if AllDates(schedules) != [] {
      var st := SettingOf(schedules, fund, hasColumns, round2, addMonths3);
      forall j | 0 <= j < |schedules| ensures StrictlyAscendingBy(TradeDates(schedules[j].1, st.start, st.end), Day) {
        WindowKeepsEveryDate(schedules, j);
        SortByDistinct(MapSeq(schedules[j].1, NavDate), Day);
      }
      HedgeTradesAscend(st, schedules, |schedules|);
    }
  }

  /**
   * Over strictly ascending dates, a currency gets a trade on its `idx`-th
   * date exactly when that date's exposure is worth hedging, and the trade
   * sells that exposure rounded.
   */
  lemma TradeOnDateIff(st: Setting, c: string, schedule: seq<NavRow>, dates: seq<int>, idx: int)
    requires StrictlyAscendingBy(dates, Day) && 0 <= idx < |dates|
    ensures (exists t :: t in CurrencyTrades(st, c, schedule, dates, |dates|) && t.tradeDate == dates[idx])
      <==> Exposure(st, c, schedule, dates, idx).Success? && Hedged(Exposure(st, c, schedule, dates, idx).value)
    ensures forall t :: t in CurrencyTrades(st, c, schedule, dates, |dates|) && t.tradeDate == dates[idx] ==>
      Exposure(st, c, schedule, dates, idx).Success?
        && t.notionalAmount == st.round2(Exposure(st, c, schedule, dates, idx).value)
  {
    var ts := CurrencyTrades(st, c, schedule, dates, |dates|);
    CurrencyTradeOrigin(st, c, schedule, dates, |dates|);
    CurrencyTradeKept(st, c, schedule, dates, |dates|, idx);
    TradeAtFacts(st, c, schedule, dates, idx);
    forall t | t in ts && t.tradeDate == dates[idx] ensures t in TradeAt(st, c, schedule, dates, idx) {
      var i :| 0 <= i < |dates| && t in TradeAt(st, c, schedule, dates, i);
      TradeAtFacts(st, c, schedule, dates, i);
      assert i == idx;
    }
    if Exposure(st, c, schedule, dates, idx).Success? && Hedged(Exposure(st, c, schedule, dates, idx).value) {
      assert TradeAt(st, c, schedule, dates, idx)[0] in TradeAt(st, c, schedule, dates, idx);
    }
  }

  /** Zero for every row. */
  function NoAmount(r: Row): real { 0.0 }

  /**
   * When every Investment row of the currency is a drawdown (a negative
   * amount), the first date's notional is the total drawn in that currency.
   */
  lemma PrincipalIsDrawn(fund: seq<Row>, currency: string)
    requires forall r :: r in InCurrency(fund, currency) && r.cashflowType == Investment ==> r.amountLocal < 0.0
    ensures PrincipalAmount(fund, true, currency) == SumOf(InCurrency(fund, currency), NavProperties.Drawn)
  {
    var rows := InCurrency(fund, currency);
    SumOfFilter(rows, (r: Row) => r.cashflowType == Investment, LocalAmount, InvestedAmount);
    SumOfAdd(rows, NoAmount, InvestedAmount, NavProperties.Drawn);
    SumOfZero(rows, NoAmount);
    SumOfNonNegative(rows, NavProperties.Drawn);
  }
}
