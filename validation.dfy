/**
 * Batch validation: every raw row is validated in order and the first
 * failing row aborts the whole batch with that row's errors.
 */
module Validation {
  import opened Results
  import opened Models
  import Tables

  /** Every element checked in order: all the results, or the error of the first element that fails. */
  function AllOrFirstError<A, B, E>(xs: seq<A>, check: A -> Result<B, E>): Result<seq<B>, E>
  {
    if xs == [] then Success([])
    else
      match AllOrFirstError(xs[..|xs| - 1], check)
      case Failure(e) => Failure(e)
      case Success(done) =>
        match check(xs[|xs| - 1])
        case Failure(e) => Failure(e)
        case Success(b) => Success(done + [b])
  }

  /**
   * The batch succeeds exactly when every element passes, and then holds
   * each element's result in order; otherwise it carries the error of the
   * first element that fails.
   */
  lemma {:induction false} AllOrFirstErrorSpec<A, B, E>(xs: seq<A>, check: A -> Result<B, E>)
    ensures var r := AllOrFirstError(xs, check);
      && (r.Success? <==> forall i :: 0 <= i < |xs| ==> check(xs[i]).Success?)
      && (r.Success? ==> |r.value| == |xs| && forall i :: 0 <= i < |xs| ==> r.value[i] == check(xs[i]).value)
      && (r.Failure? ==>
            exists k :: 0 <= k < |xs|
              && (forall i :: 0 <= i < k ==> check(xs[i]).Success?)
              && check(xs[k]) == Failure(r.error))
  {
    if xs != [] {
      var init, last := xs[..|xs| - 1], xs[|xs| - 1];
      AllOrFirstErrorSpec(init, check);
      var before := AllOrFirstError(init, check);
      if before.Failure? {
        var k :| 0 <= k < |init| && (forall i :: 0 <= i < k ==> check(init[i]).Success?) && check(init[k]) == Failure(before.error);
        assert xs[k] == init[k] && forall i :: 0 <= i < k ==> xs[i] == init[i];
        assert !check(xs[k]).Success?;
      } else {
        assert forall i :: 0 <= i < |init| ==> xs[i] == init[i];
        if check(last).Failure? {
          assert xs[|init|] == last;
        }
      }
    }
  }

  /** Once a prefix has failed, the whole batch fails with the same error. */
  lemma {:induction false} AllOrFirstErrorPrefix<A, B, E>(xs: seq<A>, check: A -> Result<B, E>, m: int)
    requires 0 <= m <= |xs| && AllOrFirstError(xs[..m], check).Failure?
    ensures AllOrFirstError(xs, check) == AllOrFirstError(xs[..m], check)
  {
    if m == |xs| {
      assert xs[..m] == xs;
    } else {
      var init := xs[..|xs| - 1];
      assert init[..m] == xs[..m];
      AllOrFirstErrorPrefix(init, check, m);
    }
  }

  /** `CashflowRecord.model_validate` as a function of the raw row. */
  function Validator(parse: string -> Result<DateTime, string>): RawRow -> Result<CashflowRecord, RecordError>
  {
    (raw: RawRow) => ValidateRecord(raw, parse)
  }

  /** `validate_records`: all rows validated, or the first failing row's error. */
  method ValidateRecords(rows: seq<RawRow>, parse: string -> Result<DateTime, string>)
    returns (r: Result<seq<CashflowRecord>, RecordError>)
    ensures r == AllOrFirstError(rows, Validator(parse))
  {
    var records: seq<CashflowRecord> := [];
    for i := 0 to |rows|
      invariant AllOrFirstError(rows[..i], Validator(parse)) == Success(records)
    {
      var record := ValidateRecord(rows[i], parse);
      assert rows[..i + 1][..i] == rows[..i];
      if record.Failure? {
        assert AllOrFirstError(rows[..i + 1], Validator(parse)) == Failure(record.error);
        AllOrFirstErrorPrefix(rows, Validator(parse), i + 1);
        return Failure(record.error);
      }
      records := records + [record.value];
    }
    assert rows[..|rows|] == rows;
    return Success(records);
  }

  /** `record.model_dump()` as a row of the validated table (the day of its date). */
  function ToRow(record: CashflowRecord): Tables.Row
  {
    Tables.Row(record.id, record.fundName, record.date.day, record.cashflowType,
               record.localCurrency, record.amountLocal, record.amountBase, record.baseCurrency)
  }

  /** The table `validate_cashflows` builds: one row per validated record, or the batch error. */
  function CashflowTable(rows: seq<RawRow>, parse: string -> Result<DateTime, string>): Result<seq<Tables.Row>, RecordError>
  {
    match AllOrFirstError(rows, Validator(parse))
    case Failure(e) => Failure(e)
    case Success(records) => Success(Tables.MapSeq(records, ToRow))
  }

  /** `validate_cashflows`: the records of `validate_records`, each dumped as a table row. */
  method ValidateCashflows(rows: seq<RawRow>, parse: string -> Result<DateTime, string>)
    returns (r: Result<seq<Tables.Row>, RecordError>)
    ensures r == CashflowTable(rows, parse)
  {
    var records := ValidateRecords(rows, parse);
    if records.Failure? {
      return Failure(records.error);
    }
    return Success(Tables.MapSeq(records.value, ToRow));
  }

  /**
   * The validated table has one row per raw row, in order, each with an
   * allowed cashflow type, an allowed local currency and EUR as base
   * currency; it fails exactly when some row does, with the first such
   * row's error.
   */
  lemma CashflowTableSpec(rows: seq<RawRow>, parse: string -> Result<DateTime, string>)
    ensures var r := CashflowTable(rows, parse);
      && (r.Success? <==> forall i :: 0 <= i < |rows| ==> ValidateRecord(rows[i], parse).Success?)
      && (r.Success? ==>
            && |r.value| == |rows|
            && forall i :: 0 <= i < |rows| ==>
                 && r.value[i] == ToRow(ValidateRecord(rows[i], parse).value)
                 && r.value[i].cashflowType in AllowedCashflowTypes
                 && r.value[i].localCurrency in AllowedCurrencies
                 && r.value[i].baseCurrency == "EUR")
      && (r.Failure? ==>
            exists k :: 0 <= k < |rows|
              && (forall i :: 0 <= i < k ==> ValidateRecord(rows[i], parse).Success?)
              && ValidateRecord(rows[k], parse) == Failure(r.error))
  {
    AllOrFirstErrorSpec(rows, Validator(parse));
  }
}
