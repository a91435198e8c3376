/**
 * `utils/data_cleaning.py`: the row filters and null-to-zero fills that turn the
 * merged flight table and the sales table into their cleaned forms. Each cleaner
 * works on a copy; the model takes the input frame as a value and returns a new one.
 */
module DataCleaning {
  import opened Wrappers
  import opened Frames

  /** `df[c]` on a column the frame lacks raises KeyError. */
  datatype CleanError = MissingColumn(name: string)

  const FlightStringColumns: seq<string> :=
    ["airline", "origin", "destination", "airport_name",
     "origin_city", "origin_state", "country", "dest_city", "dest_state"]
  const DelayColumns: seq<string> :=
    ["dep_delay", "arr_delay", "air_system_delay", "security_delay",
     "airline_delay", "late_aircraft_delay", "weather_delay"]
  const FlightNumericColumns: seq<string> :=
    ["distance", "scheduled_time", "elapsed_time", "air_time", "taxi_out", "taxi_in"]
  const SalesNumericColumns: seq<string> := ["tickets_sold", "avg_ticket_price", "revenue"]

  /** Flights shorter than this many miles are data artifacts and are dropped. */
  const MinDistance: real := 10.0

  predicate Distinct(names: seq<string>) {
    forall i, j :: 0 <= i < j < |names| ==> names[i] != names[j]
  }

  /** `astype(str)` as a cell conversion. */
  function AsText(c: Cell): Cell { Text(AsStr(c)) }

  /** `cell >= v` on a numeric column; a missing or non-numeric cell compares false. */
  predicate AtLeast(c: Cell, v: real) {
    NumberOf(c).Some? && NumberOf(c).value >= v
  }

  /**
   * `for col in names: if col in df.columns: df[col] = f(df[col])`, for one row:
   * the named columns the frame has are converted, every other field is kept.
   */
  function ConvertColumns(r: Row, columns: seq<string>, names: seq<string>, f: Cell -> Cell): (r': Row)
    requires Distinct(names)
    ensures forall c :: c in names && c in columns ==> c in r' && r'[c] == f(Get(r, c))
    ensures forall c :: !(c in names && c in columns) ==> (c in r' <==> c in r) && (c in r ==> r'[c] == r[c])
  {
    if |names| == 0 then r
    else
      var init := names[..|names| - 1];
      var c := names[|names| - 1];
      assert forall x :: x in init ==> x != c;
      var r0 := ConvertColumns(r, columns, init, f);
      if c in columns then r0[c := f(Get(r0, c))] else r0
  }

  /** None of the listed column groups repeats a name. */
  lemma ColumnListsDistinct()
    ensures Distinct(FlightStringColumns) && Distinct(DelayColumns)
    ensures Distinct(FlightNumericColumns) && Distinct(SalesNumericColumns)
  {
  }

  /** The flight cleaner's column groups do not meet, and leave the date alone. */
  lemma FlightColumnsDisjoint()
    ensures "flight_date" !in FlightStringColumns && "flight_date" !in DelayColumns
    ensures "flight_date" !in FlightNumericColumns
    ensures "distance" !in FlightStringColumns && "distance" !in DelayColumns && "distance" in FlightNumericColumns
    ensures forall c :: c in DelayColumns ==> c !in FlightNumericColumns && c !in FlightStringColumns
    ensures forall c :: c in FlightNumericColumns ==> c !in FlightStringColumns
  {
  }

  /**
   * One row of `clean_flight_delay_data`: identifiers become strings, the date is
   * coerced (NaT drops the row), delay and numeric columns become numbers with
   * missing ones 0, and the row is dropped unless its distance is at least 10.
   */
  function CleanFlightRow(columns: seq<string>, r: Row): Option<Row> {
    ColumnListsDistinct();
    var r1 := ConvertColumns(r, columns, FlightStringColumns, AsText);
    var date := ToDatetime(Get(r1, "flight_date"));
    if date.Null? then None
    else
      var r2 := r1["flight_date" := date];
      var r3 := ConvertColumns(r2, columns, DelayColumns, NumericOrZero);
      var r4 := ConvertColumns(r3, columns, FlightNumericColumns, NumericOrZero);
      if AtLeast(Get(r4, "distance"), MinDistance) then Some(r4) else None
  }

  /** When a flight row is kept: its date coerces to a real day and its distance, filled with 0, is at least 10. */
  lemma CleanFlightRowKept(columns: seq<string>, r: Row)
    requires "distance" in columns
    ensures CleanFlightRow(columns, r).Some? <==>
              ToDatetime(Get(r, "flight_date")).Day? && AtLeast(NumericOrZero(Get(r, "distance")), MinDistance)
  {
    ColumnListsDistinct();
    FlightColumnsDisjoint();
  }

  /** A column the flight cleaner does not touch. */
  predicate OtherFlightColumn(c: string) {
    c != "flight_date" && c !in FlightStringColumns && c !in DelayColumns && c !in FlightNumericColumns
  }

  /**
   * What a kept flight row holds: the coerced date, a distance of at least 10,
   * every listed delay and numeric column as a number (0 where it was missing or
   * unparsable, unchanged where it was a number), every listed identifier as a
   * string, and every other field as it was.
   */
  lemma CleanFlightRowFields(columns: seq<string>, r: Row)
    requires CleanFlightRow(columns, r).Some?
    ensures var row := CleanFlightRow(columns, r).value;
            && "flight_date" in row && IsTimestamp(row["flight_date"])
            && row["flight_date"] == ToDatetime(Get(r, "flight_date"))
            && AtLeast(Get(row, "distance"), MinDistance)
            && (forall c :: c in DelayColumns && c in columns ==> c in row && row[c] == NumericOrZero(Get(r, c)))
            && (forall c :: c in FlightNumericColumns && c in columns ==> c in row && row[c] == NumericOrZero(Get(r, c)))
            && (forall c :: c in FlightStringColumns && c in columns ==> c in row && row[c] == Text(AsStr(Get(r, c))))
            && (forall c :: OtherFlightColumn(c) && c in r ==> c in row && row[c] == r[c])
  {
    ColumnListsDistinct();
    FlightColumnsDisjoint();
  }

  /** What every row `clean_flight_delay_data` returns satisfies. */
  predicate CleanFlightRowOk(columns: seq<string>, row: Row) {
    && IsTimestamp(Get(row, "flight_date"))
    && AtLeast(Get(row, "distance"), MinDistance)
    && forall c :: c in DelayColumns && c in columns ==> IsNumber(Get(row, c))
  }

  lemma CleanFlightRowIsOk(columns: seq<string>, r: Row)
    requires CleanFlightRow(columns, r).Some?
    ensures CleanFlightRowOk(columns, CleanFlightRow(columns, r).value)
  {
    CleanFlightRowFields(columns, r);
  }

  /** The rows `clean_flight_delay_data` keeps, cleaned, in input order. */
  function CleanedFlightRows(df: Frame): seq<Row> {
    Present(seq(|df.rows|, i requires 0 <= i < |df.rows| => CleanFlightRow(df.columns, df.rows[i])))
  }

  /** Every row the flight cleaner keeps has a real date, a distance of at least 10 and numeric delays. */
  lemma CleanedFlightRowsOk(df: Frame)
    ensures forall k :: 0 <= k < |CleanedFlightRows(df)| ==> CleanFlightRowOk(df.columns, CleanedFlightRows(df)[k])
  {
    var os := seq(|df.rows|, i requires 0 <= i < |df.rows| => CleanFlightRow(df.columns, df.rows[i]));
    var at := PresentAt(os);
    forall k | 0 <= k < |CleanedFlightRows(df)|
      ensures CleanFlightRowOk(df.columns, CleanedFlightRows(df)[k])
    {
      CleanFlightRowIsOk(df.columns, df.rows[at[k]]);
    }
  }

  /** No accepted flight row is lost: each one's cleaned value is among the kept rows. */
  lemma CleanedFlightRowsComplete(df: Frame)
    ensures forall i :: 0 <= i < |df.rows| && CleanFlightRow(df.columns, df.rows[i]).Some? ==>
              CleanFlightRow(df.columns, df.rows[i]).value in CleanedFlightRows(df)
  {
    var os := seq(|df.rows|, i requires 0 <= i < |df.rows| => CleanFlightRow(df.columns, df.rows[i]));
    var at := PresentAt(os);
    forall i | 0 <= i < |df.rows| && CleanFlightRow(df.columns, df.rows[i]).Some?
      ensures CleanFlightRow(df.columns, df.rows[i]).value in CleanedFlightRows(df)
    {
      assert os[i].Some? && i in at;
      var k :| 0 <= k < |at| && at[k] == i;
      assert CleanedFlightRows(df)[k] == os[i].value;
    }
  }

  /**
   * `clean_flight_delay_data`: fails with KeyError when the frame has no
   * `flight_date` or no `distance` column; otherwise keeps, in order, exactly the
   * rows with a valid date and a distance of at least 10, with their delay and
   * numeric fields filled.
   */
  method CleanFlightDelayData(df: Frame) returns (result: Result<Frame, CleanError>)
    ensures "flight_date" !in df.columns ==> result == Failure(MissingColumn("flight_date"))
    ensures "flight_date" in df.columns && "distance" !in df.columns ==> result == Failure(MissingColumn("distance"))
    ensures "flight_date" in df.columns && "distance" in df.columns ==>
              result.Success? && result.value == Frame(df.columns, CleanedFlightRows(df))
    ensures result.Success? ==> forall k :: 0 <= k < |result.value.rows| ==>
              CleanFlightRowOk(df.columns, result.value.rows[k])
    ensures result.Success? ==> forall i :: 0 <= i < |df.rows| && CleanFlightRow(df.columns, df.rows[i]).Some? ==>
              CleanFlightRow(df.columns, df.rows[i]).value in result.value.rows
  {
    if "flight_date" !in df.columns {
      return Failure(MissingColumn("flight_date"));
    }
    if "distance" !in df.columns {
      return Failure(MissingColumn("distance"));
    }
    var clean := r => CleanFlightRow(df.columns, r);
    var rows := KeepCleaned(df.rows, clean);
    ghost var direct := seq(|df.rows|, i requires 0 <= i < |df.rows| => CleanFlightRow(df.columns, df.rows[i]));
    assert CleanEach(df.rows, clean) == direct;
    assert CleanedFlightRows(df) == Present(direct);
    CleanedFlightRowsOk(df);
    CleanedFlightRowsComplete(df);
    return Success(Frame(df.columns, rows));
  }

  /** A row whose distance is missing or does not parse reads as 0 miles and is dropped, never kept as null. */
  lemma MissingDistanceDropped(columns: seq<string>, r: Row)
    requires "distance" in columns
    requires ToNumeric(Get(r, "distance")).Null?
    ensures CleanFlightRow(columns, r).None?
  {
    CleanFlightRowKept(columns, r);
  }

  /** A row with a valid date, a long enough distance and a missing `dep_delay` is kept with `dep_delay` 0. */
  lemma MissingDelayBecomesZero(columns: seq<string>, r: Row)
    requires "dep_delay" in columns && "distance" in columns
    requires ToDatetime(Get(r, "flight_date")).Day?
    requires AtLeast(NumericOrZero(Get(r, "distance")), MinDistance)
    requires Get(r, "dep_delay").Null?
    ensures CleanFlightRow(columns, r).Some?
    ensures Get(CleanFlightRow(columns, r).value, "dep_delay") == Num(0.0)
  {
    CleanFlightRowKept(columns, r);
    CleanFlightRowFields(columns, r);
  }

  /**
   * One row of `clean_sales_data`: the date is coerced (NaT drops the row), the
   * numeric fields become numbers with missing ones 0, airline and route become
   * strings, and the row is dropped when either is "nan" or when revenue or
   * tickets sold is negative.
   */
  function CleanSalesRow(columns: seq<string>, r: Row): Option<Row> {
    ColumnListsDistinct();
    var date := ToDatetime(Get(r, "date"));
    if date.Null? then None
    else
      var r2 := r["date" := date];
      var r3 := ConvertColumns(r2, columns, SalesNumericColumns, NumericOrZero);
      var airline, route := AsStr(Get(r3, "airline")), AsStr(Get(r3, "route"));
      var r4 := r3["airline" := Text(airline)]["route" := Text(route)];
      if airline == "nan" || route == "nan" then None
      else if !AtLeast(Get(r4, "revenue"), 0.0) then None
      else if !AtLeast(Get(r4, "tickets_sold"), 0.0) then None
      else Some(r4)
  }

  /** What every row `clean_sales_data` returns satisfies. */
  predicate CleanSalesRowOk(columns: seq<string>, row: Row) {
    && IsTimestamp(Get(row, "date"))
    && Get(row, "airline").Text? && Get(row, "airline") != Text("nan")
    && Get(row, "route").Text? && Get(row, "route") != Text("nan")
    && AtLeast(Get(row, "revenue"), 0.0) && AtLeast(Get(row, "tickets_sold"), 0.0)
    && forall c :: c in SalesNumericColumns && c in columns ==> IsNumber(Get(row, c))
  }

  /**
   * A kept sales row has a real date, airline and route text other than "nan",
   * non-negative revenue and tickets sold, and its listed numeric fields are the
   * input's, coerced, with 0 for missing ones.
   */
  lemma CleanSalesRowFields(columns: seq<string>, r: Row)
    requires CleanSalesRow(columns, r).Some?
    ensures CleanSalesRowOk(columns, CleanSalesRow(columns, r).value)
    ensures var row := CleanSalesRow(columns, r).value;
            && row["date"] == ToDatetime(Get(r, "date"))
            && row["airline"] == Text(AsStr(Get(r, "airline")))
            && row["route"] == Text(AsStr(Get(r, "route")))
            && forall c :: c in SalesNumericColumns && c in columns ==> c in row && row[c] == NumericOrZero(Get(r, c))
  {
    ColumnListsDistinct();
    assert "date" !in SalesNumericColumns && "airline" !in SalesNumericColumns && "route" !in SalesNumericColumns;
  }

  /**
   * Exactly which sales rows are kept, once revenue and tickets_sold are columns:
   * those with a date that coerces, an airline and a route whose `astype(str)` is
   * not "nan", and revenue and tickets sold that are not negative after coercion
   * with 0 for missing values.
   */
  lemma CleanSalesRowKept(columns: seq<string>, r: Row)
    requires "revenue" in columns && "tickets_sold" in columns
    ensures CleanSalesRow(columns, r).Some? <==>
              && ToDatetime(Get(r, "date")).Day?
              && AsStr(Get(r, "airline")) != "nan" && AsStr(Get(r, "route")) != "nan"
              && AtLeast(NumericOrZero(Get(r, "revenue")), 0.0)
              && AtLeast(NumericOrZero(Get(r, "tickets_sold")), 0.0)
  {
    ColumnListsDistinct();
    assert "date" !in SalesNumericColumns && "airline" !in SalesNumericColumns && "route" !in SalesNumericColumns;
    assert "revenue" in SalesNumericColumns && "tickets_sold" in SalesNumericColumns;
  }

  function CleanedSalesRows(df: Frame): seq<Row> {
    Present(seq(|df.rows|, i requires 0 <= i < |df.rows| => CleanSalesRow(df.columns, df.rows[i])))
  }

  /** Every row the sales cleaner keeps satisfies `CleanSalesRowOk`. */
  lemma CleanedSalesRowsOk(df: Frame)
    ensures forall k :: 0 <= k < |CleanedSalesRows(df)| ==> CleanSalesRowOk(df.columns, CleanedSalesRows(df)[k])
  {
    var os := seq(|df.rows|, i requires 0 <= i < |df.rows| => CleanSalesRow(df.columns, df.rows[i]));
    var at := PresentAt(os);
    forall k | 0 <= k < |CleanedSalesRows(df)|
      ensures CleanSalesRowOk(df.columns, CleanedSalesRows(df)[k])
    {
      CleanSalesRowFields(df.columns, df.rows[at[k]]);
    }
  }

  /** No accepted sales row is lost: each one's cleaned value is among the kept rows. */
  lemma CleanedSalesRowsComplete(df: Frame)
    ensures forall i :: 0 <= i < |df.rows| && CleanSalesRow(df.columns, df.rows[i]).Some? ==>
              CleanSalesRow(df.columns, df.rows[i]).value in CleanedSalesRows(df)
  {
    var os := seq(|df.rows|, i requires 0 <= i < |df.rows| => CleanSalesRow(df.columns, df.rows[i]));
    var at := PresentAt(os);
    forall i | 0 <= i < |df.rows| && CleanSalesRow(df.columns, df.rows[i]).Some?
      ensures CleanSalesRow(df.columns, df.rows[i]).value in CleanedSalesRows(df)
    {
      assert os[i].Some? && i in at;
      var k :| 0 <= k < |at| && at[k] == i;
      assert CleanedSalesRows(df)[k] == os[i].value;
    }
  }

  /** The first column, in the order `clean_sales_data` reads them, that the frame lacks. */
  function SalesMissingColumn(columns: seq<string>): (m: Option<string>)
    ensures m.Some? ==> m.value !in columns
    ensures m.None? <==> forall c :: c in ["date", "airline", "route", "revenue", "tickets_sold"] ==> c in columns
  {
    if "date" !in columns then Some("date")
    else if "airline" !in columns then Some("airline")
    else if "route" !in columns then Some("route")
    else if "revenue" !in columns then Some("revenue")
    else if "tickets_sold" !in columns then Some("tickets_sold")
    else None
  }

  /**
   * `clean_sales_data`: fails with KeyError on the first of date, airline, route,
   * revenue, tickets_sold the frame lacks; otherwise keeps, in order, the rows with
   * a valid date, an airline and a route other than "nan", and non-negative revenue
   * and tickets sold, with the numeric fields filled.
   */
  method CleanSalesData(df: Frame) returns (result: Result<Frame, CleanError>)
    ensures SalesMissingColumn(df.columns).Some? ==> result == Failure(MissingColumn(SalesMissingColumn(df.columns).value))
    ensures SalesMissingColumn(df.columns).None? ==> result.Success? && result.value == Frame(df.columns, CleanedSalesRows(df))
    ensures result.Success? ==> forall k :: 0 <= k < |result.value.rows| ==>
              CleanSalesRowOk(df.columns, result.value.rows[k])
    ensures result.Success? ==> forall i :: 0 <= i < |df.rows| && CleanSalesRow(df.columns, df.rows[i]).Some? ==>
              CleanSalesRow(df.columns, df.rows[i]).value in result.value.rows
  {
    var missing := SalesMissingColumn(df.columns);
    if missing.Some? {
      return Failure(MissingColumn(missing.value));
    }
    var clean := r => CleanSalesRow(df.columns, r);
    var rows := KeepCleaned(df.rows, clean);
    ghost var direct := seq(|df.rows|, i requires 0 <= i < |df.rows| => CleanSalesRow(df.columns, df.rows[i]));
    assert CleanEach(df.rows, clean) == direct;
    assert CleanedSalesRows(df) == Present(direct);
    CleanedSalesRowsOk(df);
    CleanedSalesRowsComplete(df);
    return Success(Frame(df.columns, rows));
  }

  /** A sales row whose airline is missing is dropped: `astype(str)` turns it into "nan". */
  lemma MissingAirlineDropped(columns: seq<string>, r: Row)
    requires Get(r, "airline").Null?
    ensures CleanSalesRow(columns, r).None?
  {
    AsStrNan(Null);
  }
}
