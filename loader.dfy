/** `filter_by_fund`: select one fund's rows from the validated table. */
module Loader {
  import opened Results
  import opened Ordering
  import opened Tables

  datatype FilterError =
    | EmptyDataFrame
    | FundNotFound(fundName: string, availableFunds: seq<string>)

  /** The rows of fund `fundName`, in their original order. */
  function OfFund(rows: seq<Row>, fundName: string): seq<Row>
  {
    Filter(rows, (r: Row) => r.fundName == fundName)
  }

  /**
   * An empty table is an error; a table without the fund is an error that
   * lists the fund names present, sorted and without repeats; otherwise the
   * fund's rows.
   */
  function FilterByFund(rows: seq<Row>, fundName: string): (r: Result<seq<Row>, FilterError>)
    ensures rows == [] <==> r == Failure(EmptyDataFrame)
    ensures r.Success? <==> exists x :: x in rows && x.fundName == fundName
    ensures r.Success? ==> r.value != [] && forall x :: x in r.value ==> x.fundName == fundName
    ensures r.Success? ==> r.value == OfFund(rows, fundName)
    ensures r.Failure? && rows != [] ==>
      && r.error == FundNotFound(fundName, r.error.availableFunds)
      && StrictlySorted(r.error.availableFunds, StrLess)
      && forall n :: n in r.error.availableFunds <==> exists x :: x in rows && x.fundName == n
  {
    if rows == [] then Failure(EmptyDataFrame)
    else
      var filtered := OfFund(rows, fundName);
      if filtered == [] then
        DistinctStrings(FundNames(rows));
        assert forall n :: n in FundNames(rows) <==> exists x :: x in rows && x.fundName == n by {
          forall n ensures n in FundNames(rows) <==> exists x :: x in rows && x.fundName == n {
            if exists x :: x in rows && x.fundName == n {
              var x :| x in rows && x.fundName == n;
              var i :| 0 <= i < |rows| && rows[i] == x;
              assert FundNames(rows)[i] == n;
            }
          }
        }
        Failure(FundNotFound(fundName, DistinctSorted(FundNames(rows), StrLess)))
      else
        assert filtered[0] in filtered;
        Success(filtered)
  }

  /** Filtering the result again by the same fund returns it unchanged. */
  lemma FilterByFundIdempotent(rows: seq<Row>, fundName: string)
    requires FilterByFund(rows, fundName).Success?
    ensures FilterByFund(FilterByFund(rows, fundName).value, fundName) == FilterByFund(rows, fundName)
  {
    FilterIdempotent(rows, (r: Row) => r.fundName == fundName);
  }

  /** Selection by fund keeps each row's multiplicity and the original order. */
  lemma OfFundExact(rows: seq<Row>, more: seq<Row>, fundName: string)
    ensures OfFund(rows + more, fundName) == OfFund(rows, fundName) + OfFund(more, fundName)
    ensures forall x :: multiset(OfFund(rows, fundName))[x] == (if x.fundName == fundName then multiset(rows)[x] else 0)
  {
    FilterConcat(rows, more, (r: Row) => r.fundName == fundName);
    FilterMultiset(rows, (r: Row) => r.fundName == fundName);
  }
}
