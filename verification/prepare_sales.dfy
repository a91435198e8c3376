/**
 * scripts/prepare_sales_data_from_flightcsv.py: the synthetic sales table the
 * dashboard reads, one row per merged flight, with the date assembled from its
 * YEAR/MONTH/DAY parts, the airline name looked up by IATA code, the route built
 * from the stripped airport codes, and constant seats, price and class.
 *
 * The frames come in as read with `dtype=str`; the CSV reads and writes are
 * left to the caller.
 */
module PrepareSales {
  import opened Wrappers
  import opened Strings
  import opened Calendar
  import opened Frames

  const DefaultSeatsSold := 100
  const DefaultTicketPrice := 200
  const DefaultClass := "Economy"

  /** The columns coerced to numbers before the merge (lines 20-22). */
  const NumericColumns: seq<string> := ["FLIGHT_NUMBER", "YEAR", "MONTH", "DAY"]

  /** The columns of `sales_data`, in order (lines 58-69); a `SalesRecord` holds them in this order. */
  const SalesColumns: seq<string> :=
    ["flight_date", "airline", "flight_number", "origin", "destination", "route",
     "seats_sold", "ticket_price", "revenue", "class"]

  datatype SalesError =
    | MissingColumn(name: string)   // a KeyError on reading or merging on this column
    | NotInteger(column: string)    // `.astype("Int64")` of a column holding a fraction

  datatype SalesRecord = SalesRecord(
    flightDate: Cell, airline: Cell, flightNumber: Cell, origin: string, destination: string,
    route: string, seatsSold: int, ticketPrice: int, revenue: int, travelClass: string)

  // ---------------------------------------------------------------
  // Numeric coercion (lines 20-22)
  // ---------------------------------------------------------------

  /** A raw flight after the first `k` numeric columns have been coerced. */
  function NumericUpTo(r: Row, k: nat): Row
    requires k <= |NumericColumns|
  {
    if k == 0 then r
    else
      var prev := NumericUpTo(r, k - 1);
      prev[NumericColumns[k - 1] := ToNumeric(Get(prev, NumericColumns[k - 1]))]
  }

  function Coerced(r: Row): Row {
    NumericUpTo(r, |NumericColumns|)
  }

  /** The coercion loop: the first numeric column the frame lacks raises, else every row is coerced. */
  function CoercedFlights(flights: Frame): Result<seq<Row>, SalesError> {
    match FirstMissingColumn(flights.columns, NumericColumns)
    case Some(c) => Failure(MissingColumn(c))
    case None => Success(seq(|flights.rows|, i requires 0 <= i < |flights.rows| => Coerced(flights.rows[i])))
  }

  method CoerceNumericColumns(flights: Frame) returns (result: Result<seq<Row>, SalesError>)
    ensures result == CoercedFlights(flights)
  {
    var cur := flights.rows;
    var k := 0;
    while k < |NumericColumns|
      invariant 0 <= k <= |NumericColumns| && |cur| == |flights.rows|
      invariant forall j :: 0 <= j < k ==> NumericColumns[j] in flights.columns
      invariant forall i :: 0 <= i < |cur| ==> cur[i] == NumericUpTo(flights.rows[i], k)
    {
      var c := NumericColumns[k];
      if c !in flights.columns {
        FirstMissingColumnAt(flights.columns, NumericColumns, k);
        return Failure(MissingColumn(c));
      }
      cur := seq(|cur|, i requires 0 <= i < |cur| => cur[i][c := ToNumeric(Get(cur[i], c))]);
      k := k + 1;
    }
    assert FirstMissingColumn(flights.columns, NumericColumns).None?;
    assert cur == seq(|flights.rows|, i requires 0 <= i < |flights.rows| => Coerced(flights.rows[i]));
    return Success(cur);
  }

  // ---------------------------------------------------------------
  // The airline merge (lines 25-33)
  // ---------------------------------------------------------------

  /**
   * The airline table keyed by IATA_CODE; its AIRLINE column, clashing with the
   * flights' own AIRLINE, arrives suffixed as AIRLINE_y.
   */
  function AirlineLookup(airlines: Frame): seq<LookupRow> {
    seq(|airlines.rows|, j requires 0 <= j < |airlines.rows| =>
      LookupRow(Get(airlines.rows[j], "IATA_CODE"), map["AIRLINE_y" := Get(airlines.rows[j], "AIRLINE")]))
  }

  const AirlineNulls: Row := map["AIRLINE_y" := Null]

  /** The first KeyError of the merge and of reading AIRLINE_y, if any; pandas resolves the right key first. */
  function MergeError(flights: Frame, airlines: Frame): Option<SalesError> {
    if "IATA_CODE" !in airlines.columns then Some(MissingColumn("IATA_CODE"))
    else if "AIRLINE" !in flights.columns then Some(MissingColumn("AIRLINE"))
    else if "AIRLINE" !in airlines.columns then Some(MissingColumn("AIRLINE_y"))
    else None
  }

  function MergedFlights(rows: seq<Row>, airlines: Frame): seq<Row> {
    LeftJoin(rows, "AIRLINE", AirlineLookup(airlines), AirlineNulls)
  }

  // ---------------------------------------------------------------
  // The derived columns (lines 35-55)
  // ---------------------------------------------------------------

  /** A coerced date part that holds a whole number, and that number. */
  function WholePart(c: Cell): (r: Option<int>)
    ensures r.Some? <==> NumberOf(c).Some? && NumberOf(c).value == NumberOf(c).value.Floor as real
    ensures r.Some? ==> NumberOf(c) == Some(r.value as real)
  {
    match c
    case Int(i) => Some(i)
    case Num(x) => if x == x.Floor as real then Some(x.Floor) else None
    case _ => None
  }

  /**
   * `pd.to_datetime` of the YEAR/MONTH/DAY columns with `errors="coerce"`: the
   * day the parts name when all three are whole numbers naming a day a Timestamp
   * can hold, otherwise NaT.
   */
  function SalesDate(y: Cell, m: Cell, d: Cell): (r: Cell)
    ensures r.Null? || IsTimestamp(r)
    ensures r.Day? <==>
              && WholePart(y).Some? && WholePart(m).Some? && WholePart(d).Some?
              && ValidDate(Date(WholePart(y).value, WholePart(m).value, WholePart(d).value))
              && InTimestampRange(Date(WholePart(y).value, WholePart(m).value, WholePart(d).value))
    ensures r.Day? ==>
              NumberOf(y) == Some(r.d.year as real) && NumberOf(m) == Some(r.d.month as real)
              && NumberOf(d) == Some(r.d.day as real)
  {
    match (WholePart(y), WholePart(m), WholePart(d))
    case (Some(yy), Some(mm), Some(dd)) =>
      var date := Date(yy, mm, dd);
      if ValidDate(date) && InTimestampRange(date) then Day(date) else Null
    case _ => Null
  }

  /**
   * `.astype(str).str.strip()` of an airport code: the stripped text, and the
   * text "nan" for a missing code.
   */
  function Endpoint(c: Cell): (s: string)
    ensures c.Text? ==> s == Strip(c.s)
    ensures c.Null? ==> s == "nan"
  {
    match c
    case Null => "nan"   // str() of a missing value, which strip() keeps
    case Text(t) => Strip(t)
    case _ => Strip(AsStr(c))
  }

  /** One merged flight as a sales row, given its flight number after the Int64 cast. */
  function SalesRecordOf(f: Row, flightNumber: Cell): SalesRecord {
    var origin := Endpoint(Get(f, "ORIGIN_AIRPORT"));
    var destination := Endpoint(Get(f, "DESTINATION_AIRPORT"));
    SalesRecord(
      SalesDate(Get(f, "YEAR"), Get(f, "MONTH"), Get(f, "DAY")),
      Get(f, "AIRLINE_y"),
      flightNumber,
      origin,
      destination,
      origin + "-" + destination,
      DefaultSeatsSold,
      DefaultTicketPrice,
      DefaultSeatsSold * DefaultTicketPrice,
      DefaultClass)
  }

  predicate FlightNumbersWhole(merged: seq<Row>) {
    forall i :: 0 <= i < |merged| ==> Int64Cell(Get(merged[i], "FLIGHT_NUMBER")).Some?
  }

  /** Lines 35-69 over the merged flights: the cast of FLIGHT_NUMBER raises on a fraction, else one row each. */
  function SalesRows(merged: seq<Row>): Result<seq<SalesRecord>, SalesError> {
    if FlightNumbersWhole(merged) then Success(seq(|merged|, i requires 0 <= i < |merged| => SalesRecordOf(merged[i], Int64Cell(Get(merged[i], "FLIGHT_NUMBER")).value)))
    else Failure(NotInteger("FLIGHT_NUMBER"))
  }

  /** What the script writes, or the error it stops with. */
  function SalesTable(flights: Frame, airlines: Frame): Result<seq<SalesRecord>, SalesError> {
    match CoercedFlights(flights)
    case Failure(e) => Failure(e)
    case Success(rows) =>
      match MergeError(flights, airlines)
      case Some(e) => Failure(e)
      case None =>
        if "ORIGIN_AIRPORT" !in flights.columns then Failure(MissingColumn("ORIGIN_AIRPORT"))
        else if "DESTINATION_AIRPORT" !in flights.columns then Failure(MissingColumn("DESTINATION_AIRPORT"))
        else SalesRows(MergedFlights(rows, airlines))
  }

  /** The script from the numeric coercion to the assembled `sales_data`. */
  method PrepareSalesData(flights: Frame, airlines: Frame) returns (result: Result<seq<SalesRecord>, SalesError>)
    ensures result == SalesTable(flights, airlines)
  {
    var coerced := CoerceNumericColumns(flights);
    if coerced.Failure? {
      return Failure(coerced.error);
    }
    var err := MergeError(flights, airlines);
    if err.Some? {
      return Failure(err.value);
    }
    if "ORIGIN_AIRPORT" !in flights.columns {
      return Failure(MissingColumn("ORIGIN_AIRPORT"));
    }
    if "DESTINATION_AIRPORT" !in flights.columns {
      return Failure(MissingColumn("DESTINATION_AIRPORT"));
    }
    result := SalesRows(MergedFlights(coerced.value, airlines));
  }

  // ---------------------------------------------------------------
  // Properties
  // ---------------------------------------------------------------

  /** The coercion replaces exactly the numeric columns, each by its coerced value. */
  lemma {:induction false} NumericUpToFacts(r: Row, k: nat)
    requires k <= |NumericColumns|
    ensures forall j :: 0 <= j < k ==> Get(NumericUpTo(r, k), NumericColumns[j]) == ToNumeric(Get(r, NumericColumns[j]))
    ensures forall c :: c !in NumericColumns[..k] ==> Get(NumericUpTo(r, k), c) == Get(r, c)
  {
    if k > 0 {
      NumericUpToFacts(r, k - 1);
      var prev := NumericUpTo(r, k - 1);
      var c := NumericColumns[k - 1];
      assert forall j :: 0 <= j < k - 1 ==> NumericColumns[j] != c;
      assert Get(prev, c) == Get(r, c) by {
        assert c !in NumericColumns[..k - 1];
      }
      forall x | x !in NumericColumns[..k]
        ensures Get(NumericUpTo(r, k), x) == Get(r, x)
      {
        assert NumericColumns[..k] == NumericColumns[..k - 1] + [c];
      }
    }
  }

  lemma CoercedFacts(r: Row)
    ensures forall c :: c in NumericColumns ==> Get(Coerced(r), c) == ToNumeric(Get(r, c))
    ensures forall c :: c !in NumericColumns ==> Get(Coerced(r), c) == Get(r, c)
  {
    NumericUpToFacts(r, |NumericColumns|);
    assert NumericColumns[..|NumericColumns|] == NumericColumns;
  }

  /** What a sales row holds, in terms of the raw flight it came from. */
  predicate SalesFromFlight(raw: Row, s: SalesRecord) {
    && s.flightDate == SalesDate(ToNumeric(Get(raw, "YEAR")), ToNumeric(Get(raw, "MONTH")), ToNumeric(Get(raw, "DAY")))
    && Int64Cell(ToNumeric(Get(raw, "FLIGHT_NUMBER"))) == Some(s.flightNumber)
    && s.origin == Endpoint(Get(raw, "ORIGIN_AIRPORT"))
    && s.destination == Endpoint(Get(raw, "DESTINATION_AIRPORT"))
  }

  /** The route joins origin and destination with "-", and seats, price, revenue and class are the defaults. */
  predicate SalesDefaults(s: SalesRecord) {
    && s.route == s.origin + "-" + s.destination
    && s.seatsSold == DefaultSeatsSold && s.ticketPrice == DefaultTicketPrice
    && s.revenue == s.seatsSold * s.ticketPrice && s.revenue == 20000
    && s.travelClass == DefaultClass
  }

  /** A coerced flight, whatever the merge adds, becomes a sales row that reads as its raw flight. */
  lemma SalesRecordFromFlight(raw: Row, f: Row)
    requires forall c :: c != "AIRLINE_y" ==> Get(f, c) == Get(Coerced(raw), c)
    requires Int64Cell(Get(f, "FLIGHT_NUMBER")).Some?
    ensures var s := SalesRecordOf(f, Int64Cell(Get(f, "FLIGHT_NUMBER")).value);
            SalesFromFlight(raw, s) && SalesDefaults(s) && s.airline == Get(f, "AIRLINE_y")
  {
    CoercedFacts(raw);
    assert "ORIGIN_AIRPORT" !in NumericColumns && "DESTINATION_AIRPORT" !in NumericColumns;
    assert "YEAR" in NumericColumns && "MONTH" in NumericColumns && "DAY" in NumericColumns;
    assert "FLIGHT_NUMBER" in NumericColumns;
  }

  ghost predicate FromSomeFlight(flights: Frame, s: SalesRecord) {
    exists i :: 0 <= i < |flights.rows| && SalesFromFlight(flights.rows[i], s)
  }

  /**
   * No flight is filtered out (duplicate codes in the airline table can only add
   * rows), every sales row reads as one of the raw flights, and every row has
   * the default seats, price, class and a revenue of 20000.
   */
  lemma SalesRowsFromFlights(flights: Frame, airlines: Frame)
    requires SalesTable(flights, airlines).Success?
    ensures |SalesTable(flights, airlines).value| >= |flights.rows|
    ensures forall k :: 0 <= k < |SalesTable(flights, airlines).value| ==>
              FromSomeFlight(flights, SalesTable(flights, airlines).value[k])
              && SalesDefaults(SalesTable(flights, airlines).value[k])
  {
    var rows := CoercedFlights(flights).value;
    var lookup := AirlineLookup(airlines);
    var merged := MergedFlights(rows, airlines);
    var out := SalesTable(flights, airlines).value;
    assert out == SalesRows(merged).value;
    LeftJoinKeepsRows(rows, "AIRLINE", lookup, AirlineNulls);
    assert LookupShape(lookup, AirlineNulls);
    forall k | 0 <= k < |out|
      ensures FromSomeFlight(flights, out[k]) && SalesDefaults(out[k])
    {
      assert merged[k] in merged;
      LeftJoinRowOrigin(rows, "AIRLINE", lookup, AirlineNulls, merged[k]);
      var i :| 0 <= i < |rows| && forall c :: c !in AirlineNulls ==> Get(merged[k], c) == Get(rows[i], c);
      SalesRecordFromFlight(flights.rows[i], merged[k]);
    }
  }

  /** The AIRLINE of the first airline row whose IATA_CODE is `code`; missing when no row has it. */
  function MatchedAirline(airlines: Frame, code: Cell): (n: Cell)
    ensures (forall j :: 0 <= j < |airlines.rows| ==> Get(airlines.rows[j], "IATA_CODE") != code) ==> n == Null
    ensures !n.Null? ==> exists j :: 0 <= j < |airlines.rows| && Get(airlines.rows[j], "IATA_CODE") == code
                                    && n == Get(airlines.rows[j], "AIRLINE")
  {
    var ms := Matches(AirlineLookup(airlines), code);
    if |ms| == 0 then Null
    else
      assert ms[0] in ms;
      Get(ms[0], "AIRLINE_y")
  }

  /**
   * With unique IATA codes in the airline table the sales table has one row per
   * flight, in order, and its airline is the name on the flight's code, with no
   * fallback when the code is unknown.
   */
  lemma SalesRowPerFlight(flights: Frame, airlines: Frame)
    requires SalesTable(flights, airlines).Success?
    requires UniqueCodes(airlines)
    ensures |SalesTable(flights, airlines).value| == |flights.rows|
    ensures forall i :: 0 <= i < |flights.rows| ==>
              var s := SalesTable(flights, airlines).value[i];
              SalesFromFlight(flights.rows[i], s) && SalesDefaults(s)
              && s.airline == MatchedAirline(airlines, Get(flights.rows[i], "AIRLINE"))
  {
    var rows := CoercedFlights(flights).value;
    var merged := MergedFlights(rows, airlines);
    var out := SalesTable(flights, airlines).value;
    assert out == SalesRows(merged).value;
    MergedUniqueCodes(rows, airlines);
    forall i | 0 <= i < |flights.rows|
      ensures SalesFromFlight(flights.rows[i], out[i]) && SalesDefaults(out[i])
              && out[i].airline == MatchedAirline(airlines, Get(flights.rows[i], "AIRLINE"))
    {
      SalesRecordFromFlight(flights.rows[i], merged[i]);
      CoercedFacts(flights.rows[i]);
      assert "AIRLINE" !in NumericColumns;
    }
  }

  /** With unique codes the merge goes row for row, adding the airline name matched on the flight's AIRLINE. */
  lemma MergedUniqueCodes(rows: seq<Row>, airlines: Frame)
    requires UniqueCodes(airlines)
    ensures |MergedFlights(rows, airlines)| == |rows|
    ensures forall i, c :: 0 <= i < |rows| && c != "AIRLINE_y" ==> Get(MergedFlights(rows, airlines)[i], c) == Get(rows[i], c)
    ensures forall i :: 0 <= i < |rows| ==>
              Get(MergedFlights(rows, airlines)[i], "AIRLINE_y") == MatchedAirline(airlines, Get(rows[i], "AIRLINE"))
  {
    var lookup := AirlineLookup(airlines);
    assert forall j :: 0 <= j < |lookup| ==> lookup[j].key == Get(airlines.rows[j], "IATA_CODE");
    assert UniqueKeys(lookup);
    assert LookupShape(lookup, AirlineNulls);
    LeftJoinUniqueKeeps(rows, "AIRLINE", lookup, AirlineNulls);
    forall i, c | 0 <= i < |rows| && c != "AIRLINE_y"
      ensures Get(MergedFlights(rows, airlines)[i], c) == Get(rows[i], c)
    {
      assert c !in AirlineNulls;
    }
    forall i | 0 <= i < |rows|
      ensures Get(MergedFlights(rows, airlines)[i], "AIRLINE_y") == MatchedAirline(airlines, Get(rows[i], "AIRLINE"))
    {
      LeftJoinUniqueAdds(rows, "AIRLINE", lookup, AirlineNulls, i, "AIRLINE_y");
    }
  }

  /** A date needs three whole parts naming a real day: fractions, month 13 and 29 February 2015 give NaT. */
  lemma SalesDateExamples()
    ensures SalesDate(Num(2015.0), Num(1.0), Num(1.0)) == Day(Date(2015, 1, 1))
    ensures SalesDate(Num(2015.0), Num(1.5), Num(1.0)) == Null
    ensures SalesDate(Num(2015.0), Num(13.0), Num(1.0)) == Null
    ensures SalesDate(Num(2015.0), Num(2.0), Num(29.0)) == Null
    ensures SalesDate(Null, Num(1.0), Num(1.0)) == Null
  {
  }

  /** A missing airport code reads as the text "nan", so the route still has both halves. */
  lemma MissingEndpointReadsNan(s: SalesRecord, raw: Row)
    requires SalesFromFlight(raw, s) && SalesDefaults(s)
    requires Get(raw, "ORIGIN_AIRPORT").Null?
    ensures s.origin == "nan" && s.route[..4] == "nan-"
  {
    assert s.route == "nan" + "-" + s.destination;
  }
}
