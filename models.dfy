/**
 * Field validators of `CashflowRecord`: the date coercion, the cashflow-type
 * and currency whitelists (with the `GPB` typo correction applied first) and
 * the EUR-only base currency, combined into one record validation.
 */
module Models {
  import opened Results
  import Tables

  const AllowedCashflowTypes: seq<string> := ["Investment", "Interest", "Principal Repayment"]
  const AllowedCurrencies: seq<string> := ["GBP", "EUR", "USD"]
  const CurrencyCorrections: map<string, string> := map["GPB" := "GBP"]

  /** A `datetime`: a day number and the seconds since midnight. */
  datatype DateTime = DateTime(day: int, secondOfDay: int)

  /** What a spreadsheet cell in the Date column can hold before validation. */
  datatype DateCell =
    | DateTimeCell(dt: DateTime)       // a datetime
    | TextCell(text: string)           // a str
    | CalendarDateCell(day: int)       // a date without a time
    | OtherCell(repr: string)          // anything else, by its repr

  /** The raw row, keyed by the spreadsheet's column headers. */
  datatype RawRow = RawRow(
    id: int,
    fundName: string,
    date: DateCell,
    cashflowType: string,
    localCurrency: string,
    amountLocal: real,
    amountBase: real,
    baseCurrency: string)

  /** A validated `CashflowRecord`. */
  datatype CashflowRecord = CashflowRecord(
    id: int,
    fundName: string,
    date: DateTime,
    cashflowType: string,
    localCurrency: string,
    amountLocal: real,
    amountBase: real,
    baseCurrency: string)

  datatype DateError = Unparseable(reason: string) | Unsupported(message: string)

  /** One entry of a ValidationError: the field and its message. */
  datatype FieldError = FieldError(field: string, message: string)

  /**
   * A record fails with the field errors collected across its fields, or,
   * for a date value of an unsupported type, with the TypeError the date
   * validator raises.
   */
  datatype RecordError = InvalidFields(errors: seq<FieldError>) | UnsupportedDate(message: string)

  /** The characters Python's `str.isspace()` accepts. */
  predicate IsSpace(c: char) {
    var n := c as int;
    || n == 0x20 || 0x09 <= n <= 0x0d || 0x1c <= n <= 0x1f || n == 0x85 || n == 0xa0
    || n == 0x1680 || 0x2000 <= n <= 0x200a || n == 0x2028 || n == 0x2029
    || n == 0x202f || n == 0x205f || n == 0x3000
  }

  /** How many whitespace characters `s` starts with. */
  function LeadingSpaces(s: string): (n: nat)
    ensures n <= |s|
    ensures forall k :: 0 <= k < n ==> IsSpace(s[k])
    ensures n < |s| ==> !IsSpace(s[n])
  {
    if s == [] || !IsSpace(s[0]) then 0 else 1 + LeadingSpaces(s[1..])
  }

  /** How many whitespace characters `s` ends with. */
  function TrailingSpaces(s: string): (n: nat)
    ensures n <= |s|
    ensures forall k :: |s| - n <= k < |s| ==> IsSpace(s[k])
    ensures n < |s| ==> !IsSpace(s[|s| - n - 1])
  {
    if s == [] || !IsSpace(s[|s| - 1]) then 0 else 1 + TrailingSpaces(s[..|s| - 1])
  }

  /**
   * `r` is the slice of `s` starting at `i`, and everything of `s` around
   * that slice is whitespace.
   */
  ghost predicate SliceInSpace(s: string, r: string, i: int)
  {
    && 0 <= i <= |s| - |r|
    && r == s[i..i + |r|]
    && (forall k :: 0 <= k < i ==> IsSpace(s[k]))
    && (forall k :: i + |r| <= k < |s| ==> IsSpace(s[k]))
  }

  /**
   * `str.strip()`: drop leading and trailing whitespace. The result is a
   * slice of the input with only whitespace around it, and it neither starts
   * nor ends with whitespace.
   */
  function Strip(s: string): (r: string)
    ensures exists i :: SliceInSpace(s, r, i)
    ensures r == [] || (!IsSpace(r[0]) && !IsSpace(r[|r| - 1]))
  {
    var i := LeadingSpaces(s);
    var rest := s[i..];
    var r := rest[..|rest| - TrailingSpaces(rest)];
    assert SliceInSpace(s, r, i) by {
      assert r == s[i..i + |r|];
      forall k | i + |r| <= k < |s| ensures IsSpace(s[k]) {
        assert s[k] == rest[k - i];
      }
    }
    r
  }

  /** `str.replace("`", "")`. */
  function RemoveBackticks(s: string): (r: string)
    ensures '`' !in r
    ensures forall c :: c != '`' ==> multiset(r)[c] == multiset(s)[c]
  {
    Tables.FilterMultiset(s, (c: char) => c != '`');
    Tables.Filter(s, (c: char) => c != '`')
  }

  /**
   * `replace` keeps the order of the remaining characters: it works piece by
   * piece, and on one character it drops exactly a backtick.
   */
  lemma RemoveBackticksConcat(a: string, b: string, c: char)
    ensures RemoveBackticks(a + b) == RemoveBackticks(a) + RemoveBackticks(b)
    ensures RemoveBackticks([c]) == if c == '`' then [] else [c]
  {
    Tables.FilterConcat(a, b, (c: char) => c != '`');
    assert [c][..0] == [];
  }

  /** The cleaning applied to a date string before it is parsed. */
  function CleanDateText(s: string): string
  {
    RemoveBackticks(Strip(s))
  }

  /**
   * The cleaned text has no backtick; when the input has none either, it
   * also has no surrounding whitespace.
   */
  lemma CleanDateTextSpec(s: string)
    ensures '`' !in CleanDateText(s)
    ensures '`' !in s ==> CleanDateText(s) == Strip(s)
  {
    if '`' !in s {
      assert forall c :: c in Strip(s) ==> c in s;
      Tables.FilterAll(Strip(s), (c: char) => c != '`');
    }
  }

  /**
   * Stripping happens before the backticks are removed, so whitespace that a
   * backtick shielded survives the cleaning.
   */
  lemma CleanDateTextKeepsShieldedSpace()
    ensures CleanDateText("` 1`") == " 1"
  {
    var s := "` 1`";
    assert LeadingSpaces(s) == 0 && TrailingSpaces(s) == 0;
    assert Strip(s) == s;
    var p := (c: char) => c != '`';
    assert Tables.Filter(s[..1], p) == [] by {
      assert s[..1][..0] == [];
    }
    assert Tables.Filter(s[..2], p) == [' '] by {
      assert s[..2][..1] == s[..1];
    }
    assert Tables.Filter(s[..3], p) == [' ', '1'] by {
      assert s[..3][..2] == s[..2];
    }
    assert Tables.Filter(s, p) == [' ', '1'] by {
      assert s[..3] == s[..|s| - 1];
    }
  }

  /**
   * `_validate_date` (a "before" validator): a datetime passes unchanged, a
   * string is cleaned and handed to the date parser, a date becomes midnight
   * of that day, anything else is rejected.
   */
  function ValidateDate(value: DateCell, parse: string -> Result<DateTime, string>): (r: Result<DateTime, DateError>)
    ensures value.DateTimeCell? ==> r == Success(value.dt)
    ensures value.CalendarDateCell? ==> r == Success(DateTime(value.day, 0))
    ensures value.TextCell? ==> r.Success? == parse(CleanDateText(value.text)).Success?
    ensures value.TextCell? && r.Success? ==> r.value == parse(CleanDateText(value.text)).value
    ensures value.OtherCell? <==> r.Failure? && r.error.Unsupported?
  {
    match value
    case DateTimeCell(dt) => Success(dt)
    case TextCell(text) =>
      (match parse(CleanDateText(text))
       case Success(dt) => Success(dt)
       case Failure(reason) => Failure(Unparseable(reason)))
    case CalendarDateCell(day) => Success(DateTime(day, 0))
    case OtherCell(repr) => Failure(Unsupported("Unsupported date value: " + repr))
  }

  /** `_validate_cashflow_type`: the three literal types pass, any other is named in the error. */
  function ValidateCashflowType(value: string): (r: Result<string, string>)
    ensures r.Success? <==> value in AllowedCashflowTypes
    ensures r.Success? ==> r.value == value
    ensures r.Failure? ==> |r.error| >= |value| && r.error[|r.error| - |value|..] == value
  {
    if value !in AllowedCashflowTypes then Failure("Invalid Cashflow_Type: " + value) else Success(value)
  }

  /** `_normalize_currency` (a "before" validator): the typo table. */
  function NormalizeCurrency(value: string): string
  {
    if value in CurrencyCorrections then CurrencyCorrections[value] else value
  }

  /** Normalising twice is normalising once; only `GPB` changes, into `GBP`. */
  lemma NormalizeCurrencySpec(value: string)
    ensures NormalizeCurrency(NormalizeCurrency(value)) == NormalizeCurrency(value)
    ensures NormalizeCurrency(value) == if value == "GPB" then "GBP" else value
  {
  }

  /** `_validate_currency`: the whitelist. */
  function ValidateCurrency(value: string): (r: Result<string, string>)
    ensures r.Success? <==> value in AllowedCurrencies
    ensures r.Success? ==> r.value == value
    ensures r.Failure? ==> |r.error| >= |value| && r.error[|r.error| - |value|..] == value
  {
    if value !in AllowedCurrencies then Failure("Invalid Local_Currency: " + value) else Success(value)
  }

  /** The Local_Currency field: correction first, then the whitelist. */
  function LocalCurrencyField(value: string): Result<string, string>
  {
    ValidateCurrency(NormalizeCurrency(value))
  }

  /**
   * `GPB` is accepted as `GBP`; a value is accepted exactly when it is `GPB`
   * or already in the whitelist, and an accepted value other than `GPB` is
   * kept as it is.
   */
  lemma LocalCurrencyFieldSpec(value: string)
    ensures LocalCurrencyField("GPB") == Success("GBP")
    ensures LocalCurrencyField(value).Success? <==> value == "GPB" || value in AllowedCurrencies
    ensures LocalCurrencyField(value).Success? && value != "GPB" ==> LocalCurrencyField(value).value == value
  {
    NormalizeCurrencySpec(value);
  }

  /** `_validate_base_currency`: only EUR. */
  function ValidateBaseCurrency(value: string): (r: Result<string, string>)
    ensures r.Success? <==> value == "EUR"
    ensures r.Success? ==> r.value == value
  {
    if value != "EUR" then Failure("Base_Currency must be EUR") else Success(value)
  }

  function ErrorsOf<T>(field: string, r: Result<T, string>): seq<FieldError>
  {
    if r.Failure? then [FieldError(field, r.error)] else []
  }

  /**
   * `CashflowRecord.model_validate`: every field is validated in declaration
   * order and all failing fields are reported together, except that an
   * unsupported date type aborts with its TypeError.
   */
  function ValidateRecord(raw: RawRow, parse: string -> Result<DateTime, string>): (r: Result<CashflowRecord, RecordError>)
    ensures r.Success? <==>
      && ValidateDate(raw.date, parse).Success?
      && raw.cashflowType in AllowedCashflowTypes
      && LocalCurrencyField(raw.localCurrency).Success?
      && raw.baseCurrency == "EUR"
    ensures r.Success? ==>
      && r.value.cashflowType in AllowedCashflowTypes
      && r.value.localCurrency in AllowedCurrencies
      && r.value.localCurrency == NormalizeCurrency(raw.localCurrency)
      && r.value.baseCurrency == "EUR"
      && r.value.date == ValidateDate(raw.date, parse).value
      && r.value.amountLocal == raw.amountLocal && r.value.amountBase == raw.amountBase
      && r.value.id == raw.id && r.value.fundName == raw.fundName
    ensures raw.date.OtherCell? ==> r.Failure? && r.error.UnsupportedDate?
  {
    var date := ValidateDate(raw.date, parse);
    if date.Failure? && date.error.Unsupported? then Failure(UnsupportedDate(date.error.message))
    else
      var cashflowType := ValidateCashflowType(raw.cashflowType);
      var currency := LocalCurrencyField(raw.localCurrency);
      var base := ValidateBaseCurrency(raw.baseCurrency);
      var dateErrors := if date.Failure? then [FieldError("Date", date.error.reason)] else [];
      var errors := dateErrors + ErrorsOf("Cashflow_Type", cashflowType)
        + ErrorsOf("Local_Currency", currency) + ErrorsOf("Base_Currency", base);
      if errors == [] then
        Success(CashflowRecord(raw.id, raw.fundName, date.value, cashflowType.value, currency.value,
                               raw.amountLocal, raw.amountBase, base.value))
      else
        Failure(InvalidFields(errors))
  }
}
