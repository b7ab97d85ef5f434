/**
 * Internal rates of return.
 *
 * `calculate_irr` sums the cashflows that share a date, orders the sums by
 * date and hands them to the `xirr` solver. The solver itself is foreign
 * numeric code: it is a parameter here, a function from the ordered
 * (date, amount) entries to a rate.
 */
module Irr {
  import opened Results
  import opened Ordering
  import opened Tables

  /** A dated cashflow: (date as a day number, amount). */
  type Flow = (int, real)

  datatype IrrError = LengthMismatch | EmptySeries

  /** The `ValueError` messages raised by `calculate_irr`. */
  function ErrorMessage(e: IrrError): string
  {
    match e
    case LengthMismatch => "Cashflows and dates must have the same length."
    case EmptySeries => "Cannot calculate IRR for an empty series."
  }

  function FlowDate(f: Flow): int { f.0 }

  function FlowAmount(f: Flow): real { f.1 }

  /** `zip(date_list, cashflow_list)`. */
  function Zip(dates: seq<int>, cashflows: seq<real>): (flows: seq<Flow>)
    requires |dates| == |cashflows|
    ensures |flows| == |dates|
    ensures forall i :: 0 <= i < |flows| ==> flows[i] == (dates[i], cashflows[i])
  {
    seq(|dates|, i requires 0 <= i < |dates| => (dates[i], cashflows[i]))
  }

  /** The total of the cashflows dated `d` (0 when there are none). */
  function DateTotal(flows: seq<Flow>, d: int): real
  {
    GroupTotal(flows, FlowDate, FlowAmount)(d)
  }

  /** The `defaultdict(float)` after the loop: `aggregated[dt] += cf` for each pair in turn. */
  function Aggregate(flows: seq<Flow>): map<int, real>
  {
    if flows == [] then map[]
    else
      var m := Aggregate(flows[..|flows| - 1]);
      var d := flows[|flows| - 1].0;
      m[d := (if d in m then m[d] else 0.0) + flows[|flows| - 1].1]
  }

  /** The keys of that dictionary in insertion order: each date where it first occurs. */
  function InsertionOrder(flows: seq<Flow>): seq<int>
  {
    if flows == [] then []
    else
      var ks := InsertionOrder(flows[..|flows| - 1]);
      var d := flows[|flows| - 1].0;
      if d in ks then ks else ks + [d]
  }

  /**
   * The aggregated dictionary holds one key per distinct date, in first-seen
   * order without repetition, and maps each date to the total of its cashflows.
   */
  lemma AggregateSpec(flows: seq<Flow>)
    ensures forall d :: d in Aggregate(flows) <==> d in MapSeq(flows, FlowDate)
    ensures forall d :: d in InsertionOrder(flows) <==> d in MapSeq(flows, FlowDate)
    ensures forall i, j :: 0 <= i < j < |InsertionOrder(flows)| ==>
      InsertionOrder(flows)[i] != InsertionOrder(flows)[j]
    ensures forall d :: d in Aggregate(flows) ==> Aggregate(flows)[d] == DateTotal(flows, d)
  {
    AggregateKeys(flows);
    InsertionOrderDistinct(flows);
    AggregateValues(flows);
  }

  lemma {:induction false} AggregateKeys(flows: seq<Flow>)
    ensures forall d :: d in Aggregate(flows) <==> d in MapSeq(flows, FlowDate)
    ensures forall d :: d in InsertionOrder(flows) <==> d in MapSeq(flows, FlowDate)
  {
    if flows != [] {
      var init, last := flows[..|flows| - 1], flows[|flows| - 1];
      assert flows == init + [last];
      AggregateKeys(init);
      MapSeqConcat(init, [last], FlowDate);
    }
  }

  /** A date has been inserted exactly when the dictionary holds it. */
  lemma InsertionOrderKeys(flows: seq<Flow>)
    ensures forall d :: d in InsertionOrder(flows) <==> d in Aggregate(flows)
    ensures forall i :: 0 <= i < |InsertionOrder(flows)| ==> InsertionOrder(flows)[i] in Aggregate(flows)
  {
    AggregateKeys(flows);
    var ks := InsertionOrder(flows);
    forall i | 0 <= i < |ks| ensures ks[i] in Aggregate(flows) {
      assert ks[i] in ks;
    }
  }

  lemma {:induction false} InsertionOrderDistinct(flows: seq<Flow>)
    ensures forall i, j :: 0 <= i < j < |InsertionOrder(flows)| ==>
      InsertionOrder(flows)[i] != InsertionOrder(flows)[j]
  {
    if flows != [] {
      var init := flows[..|flows| - 1];
      InsertionOrderDistinct(init);
      var ks := InsertionOrder(init);
      var d := flows[|flows| - 1].0;
      if d !in ks {
        var r := ks + [d];
        forall i, j | 0 <= i < j < |r| ensures r[i] != r[j] {
          if j == |ks| {
            assert r[i] in ks;
          }
        }
      }
    }
  }

  lemma {:induction false} AggregateValues(flows: seq<Flow>)
    ensures forall d :: d in Aggregate(flows) ==> Aggregate(flows)[d] == DateTotal(flows, d)
  {
    if flows != [] {
      AggregateValues(flows[..|flows| - 1]);
      forall d | d in Aggregate(flows)
        ensures Aggregate(flows)[d] == DateTotal(flows, d)
      {
        AggregateValueStep(flows, d);
      }
    }
  }

  /** One more pair keeps every key of the dictionary at its date's total. */
  lemma AggregateValueStep(flows: seq<Flow>, d: int)
    requires flows != [] && d in Aggregate(flows)
    requires var init := flows[..|flows| - 1];
      forall e :: e in Aggregate(init) ==> Aggregate(init)[e] == DateTotal(init, e)
    ensures Aggregate(flows)[d] == DateTotal(flows, d)
  {
    var init, last := flows[..|flows| - 1], flows[|flows| - 1];
    assert flows == init + [last];
    GroupStep(init, last, FlowDate, FlowAmount, d);
    if d == last.0 && d !in Aggregate(init) {
      AggregateKeys(init);
      forall f | f in init ensures f.0 != d {
        MapSeqMember(init, FlowDate, d);
      }
      GroupAbsent(init, FlowDate, FlowAmount, d);
    }
  }

  /** The `(key, value)` pairs of `m` listed in the key order `ks`. */
  function Entries(ks: seq<int>, m: map<int, real>): seq<Flow>
    requires forall i :: 0 <= i < |ks| ==> ks[i] in m
  {
    seq(|ks|, i requires 0 <= i < |ks| => (ks[i], m[ks[i]]))
  }

  /** `aggregated.items()`, in the dictionary's insertion order. */
  function Items(flows: seq<Flow>): seq<Flow>
  {
    InsertionOrderKeys(flows);
    Entries(InsertionOrder(flows), Aggregate(flows))
  }

  /** `OrderedDict(sorted(aggregated.items(), key=date))`: what `xirr` receives. */
  function Ordered(flows: seq<Flow>): seq<Flow>
  {
    SortBy(Items(flows), FlowDate)
  }

  /** The items: distinct dates, exactly the dates of the input, each with its total. */
  lemma ItemsSpec(flows: seq<Flow>)
    ensures forall i, j :: 0 <= i < j < |Items(flows)| ==> Items(flows)[i].0 != Items(flows)[j].0
    ensures forall d :: d in MapSeq(Items(flows), FlowDate) <==> d in MapSeq(flows, FlowDate)
    ensures forall e :: e in Items(flows) ==> e.1 == DateTotal(flows, e.0)
  {
    var items, ks := Items(flows), InsertionOrder(flows);
    InsertionOrderDistinct(flows);
    AggregateKeys(flows);
    AggregateValues(flows);
    forall i, j | 0 <= i < j < |items| ensures items[i].0 != items[j].0 {
      assert items[i].0 == ks[i] && items[j].0 == ks[j];
    }
    forall d ensures d in MapSeq(items, FlowDate) <==> d in ks {
      MapSeqMember(items, FlowDate, d);
      if d in ks {
        var i :| 0 <= i < |ks| && ks[i] == d;
        assert items[i] in items;
      }
    }
  }

  /**
   * What `xirr` receives: one entry per distinct date, dates strictly
   * ascending, each entry holding the total of the cashflows on its date.
   */
  lemma OrderedSpec(flows: seq<Flow>)
    ensures StrictlyAscendingBy(Ordered(flows), FlowDate)
    ensures forall d :: d in MapSeq(Ordered(flows), FlowDate) <==> d in MapSeq(flows, FlowDate)
    ensures forall e :: e in Ordered(flows) ==> e.1 == DateTotal(flows, e.0)
  {
    var items, r := Items(flows), Ordered(flows);
    ItemsSpec(flows);
    SortByDistinct(items, FlowDate);
    assert forall e :: e in r <==> e in items by {
      assert forall e :: e in r <==> e in multiset(r);
      assert forall e :: e in items <==> e in multiset(items);
    }
    forall d ensures d in MapSeq(r, FlowDate) <==> d in MapSeq(items, FlowDate) {
      MapSeqMember(r, FlowDate, d);
      MapSeqMember(items, FlowDate, d);
    }
  }

  /** Aggregation preserves the total: the entries sum to the sum of all cashflows. */
  lemma OrderedTotal(flows: seq<Flow>)
    ensures SumOf(Ordered(flows), FlowAmount) == SumOf(flows, FlowAmount)
  {
    var r := Ordered(flows);
    var ks := MapSeq(r, FlowDate);
    OrderedSpec(flows);
    assert forall i :: 0 <= i < |r| ==> r[i] in r;
    SumOfPositional(r, ks, FlowAmount, GroupTotal(flows, FlowDate, FlowAmount));
    forall f | f in flows ensures f.0 in ks {
      MapSeqMember(flows, FlowDate, f.0);
    }
    GroupSumsCover(ks, flows, FlowDate, FlowAmount);
  }

  /** Two entry lists, both strictly ascending, with the same dates and the same value per date, are equal. */
  lemma EntriesUnique(a: seq<Flow>, b: seq<Flow>, total: int -> real)
    requires StrictlyAscendingBy(a, FlowDate) && StrictlyAscendingBy(b, FlowDate)
    requires forall d :: d in MapSeq(a, FlowDate) <==> d in MapSeq(b, FlowDate)
    requires forall e :: e in a ==> e.1 == total(e.0)
    requires forall e :: e in b ==> e.1 == total(e.0)
    ensures a == b
  {
    var ka, kb := MapSeq(a, FlowDate), MapSeq(b, FlowDate);
    IntLessIsStrictTotal();
    SortedUnique(ka, kb, IntLess);
    forall i | 0 <= i < |a| ensures a[i] == b[i] {
      assert ka[i] == kb[i];
      assert a[i] in a && b[i] in b;
    }
  }

  /** The order of the input does not matter: a permutation of the cashflows gives the same entries. */
  lemma OrderedPermutation(flows: seq<Flow>, other: seq<Flow>)
    requires multiset(flows) == multiset(other)
    ensures Ordered(flows) == Ordered(other)
  {
    OrderedSpec(flows);
    OrderedSpec(other);
    forall d ensures DateTotal(flows, d) == DateTotal(other, d) {
      GroupPermutation(flows, other, FlowDate, d);
      SumOfPermutation(Group(flows, FlowDate, d), Group(other, FlowDate, d), FlowAmount);
    }
    forall d ensures d in MapSeq(flows, FlowDate) <==> d in MapSeq(other, FlowDate) {
      MapSeqMember(flows, FlowDate, d);
      MapSeqMember(other, FlowDate, d);
      assert forall f :: f in flows <==> f in other by {
        assert forall f :: f in flows <==> f in multiset(flows);
        assert forall f :: f in other <==> f in multiset(other);
      }
    }
    EntriesUnique(Ordered(flows), Ordered(other), (d: int) => DateTotal(flows, d));
  }

  /**
   * `calculate_irr`: the length check comes first, then the emptiness check,
   * then the aggregation loop, the sort by date and the call to `xirr`.
   */
  method CalculateIrr(cashflows: seq<real>, dates: seq<int>, xirr: seq<Flow> -> real)
    returns (r: Result<real, IrrError>)
    ensures |cashflows| != |dates| ==> r == Failure(LengthMismatch)
    ensures |cashflows| == |dates| && cashflows == [] ==> r == Failure(EmptySeries)
    ensures |cashflows| == |dates| && cashflows != [] ==>
      r == Success(xirr(Ordered(Zip(dates, cashflows))))
  {
    if |cashflows| != |dates| {
      return Failure(LengthMismatch);
    }
    if cashflows == [] {
      return Failure(EmptySeries);
    }
    ghost var flows := Zip(dates, cashflows);
    var aggregated: map<int, real> := map[];
    var keys: seq<int> := [];
    for i := 0 to |dates|
      invariant aggregated == Aggregate(flows[..i])
      invariant keys == InsertionOrder(flows[..i])
    {
      var dt, cf := dates[i], cashflows[i];
      assert flows[..i + 1] == flows[..i] + [(dt, cf)];
      InsertionOrderKeys(flows[..i]);
      if dt !in aggregated {
        keys := keys + [dt];
      }
      aggregated := aggregated[dt := (if dt in aggregated then aggregated[dt] else 0.0) + cf];
    }
    assert flows[..|dates|] == flows;
    InsertionOrderKeys(flows);
    var items := Entries(keys, aggregated);
    var ordered := SortBy(items, FlowDate);
    return Success(xirr(ordered));
  }

  function LocalFlow(r: Row): Flow { (r.date, r.amountLocal) }

  function BaseFlow(r: Row): Flow { (r.date, r.amountBase) }

  /**
   * `calculate_currency_irrs`: one IRR per distinct local currency, each
   * computed from that currency's local amounts and dates. An empty table
   * gives an empty dictionary.
   */
  method CalculateCurrencyIrrs(rows: seq<Row>, xirr: seq<Flow> -> real)
    returns (irrs: map<string, real>)
    ensures forall c :: c in irrs <==> c in Currencies(rows)
    ensures forall c :: c in irrs ==>
      irrs[c] == xirr(Ordered(MapSeq(InCurrency(rows, c), LocalFlow)))
  {
    var currencies := DistinctSorted(Currencies(rows), StrLess);
    DistinctStrings(Currencies(rows));
    irrs := map[];
    for i := 0 to |currencies|
      invariant forall c :: c in irrs <==> c in currencies[..i]
      invariant forall c :: c in irrs ==>
        irrs[c] == xirr(Ordered(MapSeq(InCurrency(rows, c), LocalFlow)))
    {
      var currency := currencies[i];
      var irr := CurrencyIrr(rows, currency, xirr);
      irrs := irrs[currency := irr];
      assert currencies[..i + 1] == currencies[..i] + [currency];
    }
    assert currencies[..|currencies|] == currencies;
  }

  /** The body of the loop of `calculate_currency_irrs`: one currency's group, sorted by date. */
  method CurrencyIrr(rows: seq<Row>, currency: string, xirr: seq<Flow> -> real) returns (irr: real)
    requires currency in Currencies(rows)
    ensures irr == xirr(Ordered(MapSeq(InCurrency(rows, currency), LocalFlow)))
  {
    var currRows := InCurrency(rows, currency);
    var sortedRows := SortBy(currRows, RowDate);
    var cashflows := MapSeq(sortedRows, LocalAmount);
    var dates := MapSeq(sortedRows, RowDate);
    SortedGroupIrr(rows, currency, sortedRows);
    var result := CalculateIrr(cashflows, dates, xirr);
    return result.value;
  }

  /** Sorting a non-empty currency group by date leaves its ordered entries unchanged. */
  lemma SortedGroupIrr(rows: seq<Row>, currency: string, sortedRows: seq<Row>)
    requires currency in Currencies(rows)
    requires sortedRows == SortBy(InCurrency(rows, currency), RowDate)
    ensures sortedRows != []
    ensures Zip(MapSeq(sortedRows, RowDate), MapSeq(sortedRows, LocalAmount))
      == MapSeq(sortedRows, LocalFlow)
    ensures Ordered(MapSeq(sortedRows, LocalFlow))
      == Ordered(MapSeq(InCurrency(rows, currency), LocalFlow))
  {
    var group := InCurrency(rows, currency);
    MapSeqMember(rows, (r: Row) => r.localCurrency, currency);
    var w :| w in rows && w.localCurrency == currency;
    assert w in group;
    assert w in multiset(sortedRows);
    MapSeqPermutation(sortedRows, group, LocalFlow);
    OrderedPermutation(MapSeq(sortedRows, LocalFlow), MapSeq(group, LocalFlow));
  }

  /**
   * `calculate_fund_irr`: the IRR of the base-currency amounts of all rows,
   * whatever their local currency; an empty table raises the empty-series error.
   */
  method CalculateFundIrr(rows: seq<Row>, xirr: seq<Flow> -> real)
    returns (r: Result<real, IrrError>)
    ensures rows == [] ==> r == Failure(EmptySeries)
    ensures rows != [] ==> r == Success(xirr(Ordered(MapSeq(rows, BaseFlow))))
  {
    var sortedRows := SortBy(rows, RowDate);
    r := CalculateIrr(MapSeq(sortedRows, BaseAmount), MapSeq(sortedRows, RowDate), xirr);
    assert Zip(MapSeq(sortedRows, RowDate), MapSeq(sortedRows, BaseAmount))
      == MapSeq(sortedRows, BaseFlow);
    MapSeqPermutation(sortedRows, rows, BaseFlow);
    OrderedPermutation(MapSeq(sortedRows, BaseFlow), MapSeq(rows, BaseFlow));
    if rows == [] {
      assert |sortedRows| == |multiset(sortedRows)| == 0;
    } else {
      assert rows[0] in multiset(sortedRows);
    }
  }
}
