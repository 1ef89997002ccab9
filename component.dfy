/**
 * The MainTable component's state and its handlers, each a transition of that
 * state: `handleInputChange`, `addRow`, `calculatePriceGB`, `handleSubmit`
 * (which runs `calculateCnGroups`), and `handleDateChange` with the
 * `fetchExchangeRate` effect it triggers.
 */
module Component {
  import opened JsValues
  import opened Rows
  import opened CnGroups

  /** The exchange-rate line under the date input: nothing yet, a rate, or "N/A". */
  datatype RateDisplay = NoRate | RateShown(rate: real) | RateNotAvailable

  /** What the rates request for a date gives back: a failure, or the `mid` values of its `rates` list. */
  datatype RateResponse = RequestFailed | RatesReceived(mids: seq<real>)

  /**
   * The rate and its display once the request completes: the first `mid` when
   * the list has one, 0 and "N/A" when it is empty, and both left as they were
   * when the request or its parsing failed.
   */
  function RateAfterFetch(rate: real, display: RateDisplay, response: RateResponse): (r: (real, RateDisplay))
    ensures response.RequestFailed? ==> r == (rate, display)
    ensures response.RatesReceived? && response.mids != [] ==> r == (response.mids[0], RateShown(response.mids[0]))
    ensures response.RatesReceived? && response.mids == [] ==> r == (0.0, RateNotAvailable)
  {
    match response
    case RequestFailed => (rate, display)
    case RatesReceived(mids) => if mids != [] then (mids[0], RateShown(mids[0])) else (0.0, RateNotAvailable)
  }

  /** A reply whose `rates` list is empty or missing sets the rate to 0, so a following conversion leaves every row as it was. */
  lemma EmptyRatesDisableConversion(rows: seq<Row>, rate: real, display: RateDisplay)
    ensures CalculatePriceGB(rows, RateAfterFetch(rate, display, RatesReceived([])).0) == rows
  {
  }

  /** A failed request keeps the previous rate, so a following conversion still divides by it. */
  lemma FailedFetchKeepsRate(rows: seq<Row>, rate: real, display: RateDisplay)
    ensures CalculatePriceGB(rows, RateAfterFetch(rate, display, RequestFailed).0) == CalculatePriceGB(rows, rate)
  {
  }

  class MainTable {
    var rows: seq<Row>
    var cnGroups: map<string, Number>
    var priceSummary: map<string, Number>
    var exchangeRate: real
    var conversionDate: string
    var exchangeRateDisplay: RateDisplay

    /** Row ids follow the row positions, and both summaries have the same groups. */
    ghost predicate Valid()
      reads this
    {
      IdsSequential(rows) && cnGroups.Keys == priceSummary.Keys
    }

    /** The initial state, with nothing saved: the default table, no groups, rate 0 and no date. */
    constructor ()
      ensures Valid()
      ensures rows == DefaultRows()
      ensures cnGroups == map[] && priceSummary == map[]
      ensures exchangeRate == 0.0 && conversionDate == "" && exchangeRateDisplay == NoRate
    {
      rows := DefaultRows();
      cnGroups, priceSummary := map[], map[];
      exchangeRate, conversionDate, exchangeRateDisplay := 0.0, "", NoRate;
    }

    method HandleInputChange(rowIndex: int, field: Field, value: string, parseFloat: string -> Number)
      requires Valid()
      modifies this`rows
      ensures Valid()
      ensures rows == Rows.HandleInputChange(old(rows), rowIndex, field, value, parseFloat)
    {
      HandleInputChangeKeepsIdsSequential(rows, rowIndex, field, value, parseFloat);
      rows := Rows.HandleInputChange(rows, rowIndex, field, value, parseFloat);
    }

    method AddRow()
      requires Valid()
      modifies this`rows
      ensures Valid()
      ensures rows == Rows.AddRow(old(rows))
    {
      AddRowKeepsIdsSequential(rows);
      rows := Rows.AddRow(rows);
    }

    /** With no positive rate the button does nothing. */
    method CalculatePriceGB()
      requires Valid()
      modifies this`rows
      ensures Valid()
      ensures rows == Rows.CalculatePriceGB(old(rows), exchangeRate)
      ensures exchangeRate <= 0.0 ==> rows == old(rows)
    {
      CalculatePriceGBKeepsIdsSequential(rows, exchangeRate);
      rows := Rows.CalculatePriceGB(rows, exchangeRate);
    }

    /**
     * Form submission runs the grouping pass with the bucket guard as written,
     * `!groups[cnGroup]`. When a CN code is not text the pass throws, reported
     * here as `thrown`, and neither summary is set.
     */
    method HandleSubmit() returns (thrown: Option<GroupingError>)
      requires Valid()
      modifies this`cnGroups, this`priceSummary
      ensures Valid()
      ensures thrown.None? <==> AllText(rows)
      ensures AllText(rows) ==> cnGroups == Fold(AsWritten, rows).groups && priceSummary == Fold(AsWritten, rows).prices
      ensures !AllText(rows) ==>
        && thrown == Some(CodeNotText(FirstNonText(rows)))
        && cnGroups == old(cnGroups) && priceSummary == old(priceSummary)
    {
      var r := CalculateCnGroupsAsWritten(rows);
      match r
      case Success(summary) =>
        cnGroups, priceSummary := summary.groups, summary.prices;
        thrown := None;
      case Failure(e) =>
        thrown := Some(e);
    }

    /** Form submission with the bucket guard corrected: a bucket is opened only for a new key. */
    method HandleSubmitCorrected() returns (thrown: Option<GroupingError>)
      requires Valid()
      modifies this`cnGroups, this`priceSummary
      ensures Valid()
      ensures thrown.None? <==> AllText(rows)
      ensures AllText(rows) ==> cnGroups == Fold(Corrected, rows).groups && priceSummary == Fold(Corrected, rows).prices
      ensures !AllText(rows) ==>
        && thrown == Some(CodeNotText(FirstNonText(rows)))
        && cnGroups == old(cnGroups) && priceSummary == old(priceSummary)
    {
      var r := CalculateCnGroups(rows);
      match r
      case Success(summary) =>
        cnGroups, priceSummary := summary.groups, summary.prices;
        thrown := None;
      case Failure(e) =>
        thrown := Some(e);
    }

    /** The rates request completing with `response`. */
    method FetchExchangeRate(response: RateResponse)
      requires Valid()
      modifies this`exchangeRate, this`exchangeRateDisplay
      ensures Valid()
      ensures (exchangeRate, exchangeRateDisplay) == RateAfterFetch(old(exchangeRate), old(exchangeRateDisplay), response)
    {
      exchangeRate, exchangeRateDisplay := RateAfterFetch(exchangeRate, exchangeRateDisplay, response).0,
        RateAfterFetch(exchangeRate, exchangeRateDisplay, response).1;
    }

    /**
     * A new date is stored; the effect watching it requests the rate only when
     * the date changed and is not empty, and `response` is what that request
     * gives back.
     */
    method HandleDateChange(date: string, response: RateResponse)
      requires Valid()
      modifies this`conversionDate, this`exchangeRate, this`exchangeRateDisplay
      ensures Valid()
      ensures conversionDate == date
      ensures date != "" && date != old(conversionDate) ==>
        (exchangeRate, exchangeRateDisplay) == RateAfterFetch(old(exchangeRate), old(exchangeRateDisplay), response)
      ensures date == "" || date == old(conversionDate) ==>
        exchangeRate == old(exchangeRate) && exchangeRateDisplay == old(exchangeRateDisplay)
    {
      var changed := date != conversionDate;
      conversionDate := date;
      if changed && date != "" {
        FetchExchangeRate(response);
      }
    }
  }
}
