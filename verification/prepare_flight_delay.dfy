/**
 * `scripts/prepare_flight_delay_from_raw.py`: builds the flight-delay table from
 * the raw flight, airline and airport tables (all read as text). The script casts
 * the date parts, derives the flight date, strips the identifier columns,
 * defaults the cancelled/diverted flags, attaches airline names and airport
 * details with three left merges, and assembles the output table `out`.
 */
module PrepareFlightDelay {
  import opened Wrappers
  import opened Numbers
  import opened Strings
  import opened Calendar
  import opened Frames

  /**
   * Why the script stops: an `astype("Int64")` of a column holding a fraction,
   * a `KeyError` on a lookup column, or no airline-name column to select.
   */
  datatype PrepError = NotInteger(column: string) | MissingColumn(name: string) | NoAirlineNameColumn

  // ---------------------------------------------------------------
  // Int64 casts (lines 28-30 and 73-77)
  // ---------------------------------------------------------------

  /** `pd.to_numeric(c, errors="coerce")`, then `.fillna(0)` when `fillZero`, then `.astype("Int64")`. */
  function CastCell(c: Cell, fillZero: bool): (r: Option<Cell>)
    ensures fillZero && r.Some? ==> r.value.Int?
  {
    var n := ToNumeric(c);
    Int64Cell(if fillZero then FillNa(n, Int(0)) else n)
  }

  predicate CastsCleanly(rows: seq<Row>, c: string, fillZero: bool) {
    forall i :: 0 <= i < |rows| ==> CastCell(Get(rows[i], c), fillZero).Some?
  }

  function CastColumn(rows: seq<Row>, c: string, fillZero: bool): seq<Row>
    requires CastsCleanly(rows, c, fillZero)
  {
    seq(|rows|, i requires 0 <= i < |rows| => rows[i][c := CastCell(Get(rows[i], c), fillZero).value])
  }

  /** `df[c] = 0` for a column the frame lacks. */
  function ZeroColumn(rows: seq<Row>, c: string): seq<Row> {
    seq(|rows|, i requires 0 <= i < |rows| => rows[i][c := Int(0)])
  }

  /**
   * `for c in names: if c in df.columns: df[c] = cast(df[c])`, an absent column
   * set to 0 when `absentZero`: the first named column holding a fraction raises.
   */
  function CastColumns(columns: seq<string>, rows: seq<Row>, names: seq<string>, fillZero: bool, absentZero: bool)
    : Result<seq<Row>, PrepError>
    decreases |names|
  {
    if |names| == 0 then Success(rows)
    else
      var c := names[0];
      if c in columns then
        if CastsCleanly(rows, c, fillZero) then CastColumns(columns, CastColumn(rows, c, fillZero), names[1..], fillZero, absentZero)
        else Failure(NotInteger(c))
      else if absentZero then CastColumns(columns, ZeroColumn(rows, c), names[1..], fillZero, absentZero)
      else CastColumns(columns, rows, names[1..], fillZero, absentZero)
  }

  /** Casts column `c` of every row, or None when some row holds a fraction. */
  method CastColumnRows(rows: seq<Row>, c: string, fillZero: bool) returns (r: Option<seq<Row>>)
    ensures CastsCleanly(rows, c, fillZero) ==> r == Some(CastColumn(rows, c, fillZero))
    ensures !CastsCleanly(rows, c, fillZero) ==> r.None?
  {
    var out: seq<Row> := [];
    var i := 0;
    while i < |rows|
      invariant 0 <= i <= |rows|
      invariant forall j :: 0 <= j < i ==> CastCell(Get(rows[j], c), fillZero).Some?
      invariant |out| == i
      invariant forall j :: 0 <= j < i ==> out[j] == rows[j][c := CastCell(Get(rows[j], c), fillZero).value]
    {
      var cell := CastCell(Get(rows[i], c), fillZero);
      if cell.None? {
        return None;
      }
      out := out + [rows[i][c := cell.value]];
      i := i + 1;
    }
    assert out == CastColumn(rows, c, fillZero);
    return Some(out);
  }

  method CastColumnsInTurn(columns: seq<string>, rows: seq<Row>, names: seq<string>, fillZero: bool, absentZero: bool)
    returns (result: Result<seq<Row>, PrepError>)
    ensures result == CastColumns(columns, rows, names, fillZero, absentZero)
  {
    var cur := rows;
    var k := 0;
    while k < |names|
      invariant 0 <= k <= |names|
      invariant CastColumns(columns, rows, names, fillZero, absentZero) == CastColumns(columns, cur, names[k..], fillZero, absentZero)
    {
      var c := names[k];
      assert names[k..][1..] == names[k + 1..];
      if c in columns {
        var r := CastColumnRows(cur, c, fillZero);
        if r.None? {
          return Failure(NotInteger(c));
        }
        cur := r.value;
      } else if absentZero {
        cur := ZeroColumn(cur, c);
      }
      k := k + 1;
    }
    assert names[|names|..] == [];
    return Success(cur);
  }

  // ---------------------------------------------------------------
  // make_flight_date and the identifier columns (lines 32-84)
  // ---------------------------------------------------------------

  const PartColumns: seq<string> := ["YEAR", "MONTH", "DAY"]
  const DateFallbacks: seq<string> := ["FLIGHT_DATE", "DATE", "SCHEDULED_DEPARTURE_DATE"]
  const FlagColumns: seq<string> := ["CANCELLED", "DIVERTED"]

  /** The first of `cands` that `columns` has, scanning `cands` in order. */
  function FirstIn(cands: seq<string>, columns: seq<string>): (r: Option<string>)
    ensures r.Some? ==> r.value in cands && r.value in columns
    ensures r.Some? ==> exists k :: 0 <= k < |cands| && cands[k] == r.value
                          && forall k' :: 0 <= k' < k ==> cands[k'] !in columns
    ensures r.None? <==> forall c :: c in cands ==> c !in columns
  {
    if |cands| == 0 then None
    else if cands[0] in columns then Some(cands[0])
    else
      var r := FirstIn(cands[1..], columns);
      assert forall k :: 1 <= k < |cands| ==> cands[k] == cands[1..][k - 1];
      r
  }

  /** A candidate present with none before it present is the one `FirstIn` picks. */
  lemma FirstInIs(cands: seq<string>, columns: seq<string>, k: nat)
    requires k < |cands| && cands[k] in columns
    requires forall k' :: 0 <= k' < k ==> cands[k'] !in columns
    ensures FirstIn(cands, columns) == Some(cands[k])
  {
    var r := FirstIn(cands, columns);
    var k0 :| 0 <= k0 < |cands| && cands[k0] == r.value && forall k' :: 0 <= k' < k0 ==> cands[k'] !in columns;
  }

  /**
   * `pd.to_datetime` of a YEAR/MONTH/DAY triple with `errors="coerce"`: the day
   * they name when all three are present and form a date pandas can hold, else NaT.
   */
  function DateFromParts(y: Cell, m: Cell, d: Cell): (r: Cell)
    ensures r.Null? || IsTimestamp(r)
    ensures r.Day? <==> y.Int? && m.Int? && d.Int? && ValidDate(Date(y.i, m.i, d.i)) && InTimestampRange(Date(y.i, m.i, d.i))
    ensures r.Day? ==> r.d == Date(y.i, m.i, d.i)
  {
    if y.Int? && m.Int? && d.Int? then
      var date := Date(y.i, m.i, d.i);
      if ValidDate(date) && InTimestampRange(date) then Day(date) else Null
    else Null
  }

  predicate HasParts(columns: seq<string>) {
    "YEAR" in columns && "MONTH" in columns && "DAY" in columns
  }

  /** `make_flight_date` for one row: the parts when the frame has all three, else the first date column it has, else NaT. */
  function FlightDate(columns: seq<string>, r: Row): (c: Cell)
    ensures c.Null? || IsTimestamp(c)
  {
    if HasParts(columns) then DateFromParts(Get(r, "YEAR"), Get(r, "MONTH"), Get(r, "DAY"))
    else match FirstIn(DateFallbacks, columns)
      case Some(col) => ToDatetime(Get(r, col))
      case None => Null
  }

  /** `df[src].astype(str).str.strip()` when the frame has `src`, else None. */
  function StrippedOrNull(columns: seq<string>, r: Row, src: string): (c: Cell)
    ensures src in columns ==> c.Text? && c.s == Strip(AsStr(Get(r, src)))
    ensures src !in columns ==> c.Null?
  {
    if src in columns then Text(Strip(AsStr(Get(r, src)))) else Null
  }

  /** A row with the five derived columns written. */
  function WithStaged(r: Row, date: Cell, origin: Cell, destination: Cell, number: Cell, code: Cell): Row {
    r["flight_date" := date]["origin" := origin]["destination" := destination]
     ["flight_number" := number]["AIRLINE_CODE" := code]
  }

  /** The columns the script derives for one flight before the merges. */
  function StageFlight(columns: seq<string>, r: Row): Row {
    WithStaged(r, FlightDate(columns, r), StrippedOrNull(columns, r, "ORIGIN_AIRPORT"),
               StrippedOrNull(columns, r, "DESTINATION_AIRPORT"), StrippedOrNull(columns, r, "FLIGHT_NUMBER"),
               StrippedOrNull(columns, r, "AIRLINE"))
  }

  method StageFlights(columns: seq<string>, rows: seq<Row>) returns (staged: seq<Row>)
    ensures |staged| == |rows|
    ensures forall i :: 0 <= i < |rows| ==> staged[i] == StageFlight(columns, rows[i])
  {
    staged := [];
    var i := 0;
    while i < |rows|
      invariant 0 <= i <= |rows| && |staged| == i
      invariant forall j :: 0 <= j < i ==> staged[j] == StageFlight(columns, rows[j])
    {
      var s := StageFlight(columns, rows[i]);
      staged := staged + [s];
      assert staged[i] == s;
      i := i + 1;
    }
  }

  // ---------------------------------------------------------------
  // Lookups and merges (lines 86-117)
  // ---------------------------------------------------------------

  const AirlineNameCandidates: seq<string> := ["AIRLINE", "Airline", "NAME", "Name", "airline"]

  /** The airline-name column: the first candidate the airline table has, else its second column. */
  function AirlineNameColumn(columns: seq<string>): Option<string> {
    match FirstIn(AirlineNameCandidates, columns)
    case Some(c) => Some(c)
    case None => if |columns| >= 2 then Some(columns[1]) else None
  }

  /** The candidate loop of lines 88-96. */
  method ChooseAirlineNameColumn(columns: seq<string>) returns (name: Option<string>)
    ensures name.Some? ==> name.value in columns
    ensures FirstIn(AirlineNameCandidates, columns).Some? ==> name == FirstIn(AirlineNameCandidates, columns)
    ensures FirstIn(AirlineNameCandidates, columns).None? ==>
              (name.Some? <==> |columns| >= 2) && (name.Some? ==> name.value == columns[1])
  {
    name := None;
    var k := 0;
    while k < |AirlineNameCandidates|
      invariant 0 <= k <= |AirlineNameCandidates|
      invariant forall k' :: 0 <= k' < k ==> AirlineNameCandidates[k'] !in columns
    {
      if AirlineNameCandidates[k] in columns {
        name := Some(AirlineNameCandidates[k]);
        FirstInIs(AirlineNameCandidates, columns, k);
        break;
      }
      k := k + 1;
    }
    if name.None? && |columns| >= 2 {
      name := Some(columns[1]);
    }
  }

  /** `airlines[["IATA_CODE", name]]` renamed: key the code, contributing `airline_name`. */
  function AirlineLookup(airlines: Frame, name: string): seq<LookupRow> {
    seq(|airlines.rows|, i requires 0 <= i < |airlines.rows| =>
      LookupRow(Get(airlines.rows[i], "IATA_CODE"), map["airline_name" := Get(airlines.rows[i], name)]))
  }

  const AirlineNulls: Row := map["airline_name" := Null]

  /** The airport table's columns the lookup selects, and their names after each merge's renaming. */
  const AirportSources: seq<string> := ["IATA_CODE", "AIRPORT", "CITY", "STATE", "COUNTRY", "LATITUDE", "LONGITUDE"]
  const OriginFields: seq<string> :=
    ["iata", "origin_airport_name", "origin_city", "origin_state", "origin_country", "origin_lat", "origin_lon"]
  const DestFields: seq<string> :=
    ["iata_dest", "airport_name_dest", "city_dest", "state_dest", "country_dest", "lat_dest", "lon_dest"]

  /** The row holding `a[srcs[k]]` under the name `names[k]`. */
  function Project(a: Row, srcs: seq<string>, names: seq<string>): (p: Row)
    requires |srcs| == |names|
    ensures p.Keys == set n | n in names
  {
    if |names| == 0 then map[] else Project(a, srcs[1..], names[1..])[names[0] := Get(a, srcs[0])]
  }

  /** The columns `names`, all missing: what a merge adds to a row without a match. */
  function NullRow(names: seq<string>): (r: Row)
    ensures r.Keys == set n | n in names
  {
    map n | n in names :: Null
  }

  function AirportLookup(airports: Frame, names: seq<string>): seq<LookupRow>
    requires |names| == |AirportSources|
  {
    seq(|airports.rows|, i requires 0 <= i < |airports.rows| =>
      LookupRow(Get(airports.rows[i], "IATA_CODE"), Project(airports.rows[i], AirportSources, names)))
  }

  /** The first reason the lookups cannot be built (lines 98-117), if any. */
  function LookupError(airlines: Frame, airports: Frame): (e: Option<PrepError>)
    ensures e.None? ==> AirlineNameColumn(airlines.columns).Some?
  {
    match AirlineNameColumn(airlines.columns)
    case None => Some(NoAirlineNameColumn)
    case Some(name) =>
      if "IATA_CODE" !in airlines.columns then Some(MissingColumn("IATA_CODE"))
      // selecting IATA_CODE twice renames both copies to airline_name, so the merge finds no AIRLINE_CODE
      else if name == "IATA_CODE" then Some(MissingColumn("AIRLINE_CODE"))
      else match FirstMissingColumn(airports.columns, AirportSources)
        case Some(c) => Some(MissingColumn(c))
        case None => None
  }

  /** The three left merges: airline names on the code, airport details on origin, then on destination. */
  function Merged(rows: seq<Row>, airlines: Frame, name: string, airports: Frame): seq<Row> {
    var m1 := LeftJoin(rows, "AIRLINE_CODE", AirlineLookup(airlines, name), AirlineNulls);
    var m2 := LeftJoin(m1, "origin", AirportLookup(airports, OriginFields), NullRow(OriginFields));
    LeftJoin(m2, "destination", AirportLookup(airports, DestFields), NullRow(DestFields))
  }

  // ---------------------------------------------------------------
  // The output table (lines 122-147)
  // ---------------------------------------------------------------

  const OutColumns: seq<string> :=
    ["flight_date", "airline", "flight_number", "origin", "destination", "dep_delay", "arr_delay",
     "distance", "cancelled", "diverted", "air_system_delay", "security_delay", "airline_delay",
     "late_aircraft_delay", "weather_delay", "_missing_dep_delay", "_missing_arr_delay", "_missing_date"]

  /** One row of `out`, its fields in the order of `OutColumns`. */
  datatype FlightRecord = FlightRecord(
    flightDate: Cell, airline: Cell, flightNumber: Cell, origin: Cell, destination: Cell,
    depDelay: Cell, arrDelay: Cell, distance: Cell, cancelled: Cell, diverted: Cell,
    airSystemDelay: Cell, securityDelay: Cell, airlineDelay: Cell, lateAircraftDelay: Cell, weatherDelay: Cell,
    missingDepDelay: bool, missingArrDelay: bool, missingDate: bool)

  /**
   * One merged flight as a row of `out`: the airline name, or the code when the
   * name is missing; the delay and distance columns coerced to numbers; the
   * flags of which essential values are missing.
   */
  function OutRecord(f: Row): (o: FlightRecord)
    ensures o.missingDepDelay <==> o.depDelay.Null?
    ensures o.missingArrDelay <==> o.arrDelay.Null?
    ensures o.missingDate <==> o.flightDate.Null?
    ensures o.depDelay.Null? || IsNumber(o.depDelay)
    ensures o.arrDelay.Null? || IsNumber(o.arrDelay)
    ensures o.distance.Null? || IsNumber(o.distance)
    ensures !Get(f, "airline_name").Null? ==> o.airline == Get(f, "airline_name")
    ensures Get(f, "airline_name").Null? ==> o.airline == Get(f, "AIRLINE_CODE")
  {
    var dep := ToNumeric(Get(f, "DEPARTURE_DELAY"));
    var arr := ToNumeric(Get(f, "ARRIVAL_DELAY"));
    FlightRecord(
      Get(f, "flight_date"),
      FillNa(Get(f, "airline_name"), Get(f, "AIRLINE_CODE")),
      Get(f, "flight_number"),
      Get(f, "origin"),
      Get(f, "destination"),
      dep,
      arr,
      ToNumeric(Get(f, "DISTANCE")),
      Get(f, "CANCELLED"),
      Get(f, "DIVERTED"),
      ToNumeric(Get(f, "AIR_SYSTEM_DELAY")),
      ToNumeric(Get(f, "SECURITY_DELAY")),
      ToNumeric(Get(f, "AIRLINE_DELAY")),
      ToNumeric(Get(f, "LATE_AIRCRAFT_DELAY")),
      ToNumeric(Get(f, "WEATHER_DELAY")),
      dep.Null?, arr.Null?, Get(f, "flight_date").Null?)
  }

  function OutTable(merged: seq<Row>): seq<FlightRecord> {
    seq(|merged|, i requires 0 <= i < |merged| => OutRecord(merged[i]))
  }

  /** The flights after the casts and the derived columns, before the merges. */
  function PreparedFlights(flights: Frame): Result<seq<Row>, PrepError> {
    match CastColumns(flights.columns, flights.rows, PartColumns, false, false)
    case Failure(e) => Failure(e)
    case Success(rows) =>
      var staged := seq(|rows|, i requires 0 <= i < |rows| => StageFlight(flights.columns, rows[i]));
      CastColumns(flights.columns, staged, FlagColumns, true, true)
  }

  /** What the script writes, or why it stops. */
  function FlightDelayTable(flights: Frame, airlines: Frame, airports: Frame): Result<seq<FlightRecord>, PrepError> {
    match PreparedFlights(flights)
    case Failure(e) => Failure(e)
    case Success(rows) =>
      match LookupError(airlines, airports)
      case Some(e) => Failure(e)
      case None =>
        Success(OutTable(Merged(rows, airlines, AirlineNameColumn(airlines.columns).value, airports)))
  }

  /** Lines 122-147: one `out` row per merged flight, in order. */
  method BuildOut(merged: seq<Row>) returns (out: seq<FlightRecord>)
    ensures out == OutTable(merged)
  {
    out := [];
    var i := 0;
    while i < |merged|
      invariant 0 <= i <= |merged| && |out| == i
      invariant forall j :: 0 <= j < i ==> out[j] == OutRecord(merged[j])
    {
      out := out + [OutRecord(merged[i])];
      i := i + 1;
    }
  }

  /** The script from the date-part casts to the assembled `out` table. */
  method PrepareFlightDelayTable(flights: Frame, airlines: Frame, airports: Frame)
    returns (result: Result<seq<FlightRecord>, PrepError>)
    ensures result == FlightDelayTable(flights, airlines, airports)
  {
    var parts := CastColumnsInTurn(flights.columns, flights.rows, PartColumns, false, false);
    if parts.Failure? {
      return Failure(parts.error);
    }
    var staged := StageFlights(flights.columns, parts.value);
    assert staged == seq(|parts.value|, i requires 0 <= i < |parts.value| => StageFlight(flights.columns, parts.value[i]));
    var flagged := CastColumnsInTurn(flights.columns, staged, FlagColumns, true, true);
    if flagged.Failure? {
      return Failure(flagged.error);
    }
    var name := ChooseAirlineNameColumn(airlines.columns);
    assert name == AirlineNameColumn(airlines.columns);
    if name.None? {
      return Failure(NoAirlineNameColumn);
    }
    if "IATA_CODE" !in airlines.columns {
      return Failure(MissingColumn("IATA_CODE"));
    }
    if name.value == "IATA_CODE" {
      return Failure(MissingColumn("AIRLINE_CODE"));
    }
    var missing := FirstMissingColumn(airports.columns, AirportSources);
    if missing.Some? {
      return Failure(MissingColumn(missing.value));
    }
    var merged := Merged(flagged.value, airlines, name.value, airports);
    var out := BuildOut(merged);
    return Success(out);
  }

  // ---------------------------------------------------------------
  // Properties
  // ---------------------------------------------------------------

  /** Parts that do not name a day give NaT without raising: month 13, 29 February 2015, a missing part. */
  lemma DateFromPartsExamples()
    ensures DateFromParts(Int(2015), Int(1), Int(1)) == Day(Date(2015, 1, 1))
    ensures DateFromParts(Int(2015), Int(13), Int(1)) == Null
    ensures DateFromParts(Int(2015), Int(2), Int(29)) == Null
    ensures DateFromParts(Int(2016), Int(2), Int(29)) == Day(Date(2016, 2, 29))
    ensures DateFromParts(Null, Int(1), Int(1)) == Null
  {
  }

  /** Without all three parts the date comes from the first of FLIGHT_DATE, DATE, SCHEDULED_DEPARTURE_DATE the frame has. */
  lemma FlightDateFallback(columns: seq<string>, r: Row, k: nat)
    requires !HasParts(columns)
    requires k < |DateFallbacks| && DateFallbacks[k] in columns
    requires forall k' :: 0 <= k' < k ==> DateFallbacks[k'] !in columns
    ensures FlightDate(columns, r) == ToDatetime(Get(r, DateFallbacks[k]))
  {
    FirstInIs(DateFallbacks, columns, k);
  }

  /** With neither the parts nor any date column the date is NaT. */
  lemma FlightDateNone(columns: seq<string>, r: Row)
    requires !HasParts(columns)
    requires forall c :: c in DateFallbacks ==> c !in columns
    ensures FlightDate(columns, r).Null?
  {
  }

  /** The airline-name column is the first candidate the table has ... */
  lemma AirlineNameFromCandidates(columns: seq<string>, k: nat)
    requires k < |AirlineNameCandidates| && AirlineNameCandidates[k] in columns
    requires forall k' :: 0 <= k' < k ==> AirlineNameCandidates[k'] !in columns
    ensures AirlineNameColumn(columns) == Some(AirlineNameCandidates[k])
  {
    FirstInIs(AirlineNameCandidates, columns, k);
  }

  /** ... and otherwise its second column, when it has two. */
  lemma AirlineNameFallback(columns: seq<string>)
    requires forall c :: c in AirlineNameCandidates ==> c !in columns
    ensures AirlineNameColumn(columns) == (if |columns| >= 2 then Some(columns[1]) else None)
  {
  }

  /** The cancelled/diverted cast: missing or unparsable becomes 0, a whole number is kept, a fraction raises. */
  lemma FlagCastExamples()
    ensures CastCell(Null, true) == Some(Int(0))
    ensures CastCell(Text("yes"), true) == Some(Int(0))
    ensures CastCell(Num(1.0), true) == Some(Int(1))
    ensures CastCell(Num(0.5), true).None?
  {
    assert ParseNumber("yes").None? by {
      assert FindDot("yes") == None;
    }
  }

  /**
   * Casting touches only the named columns and keeps the row count; when missing
   * values become 0 and absent columns are set to 0, every named column ends up
   * an int in every row.
   */
  lemma {:induction false} CastColumnsFacts(columns: seq<string>, rows: seq<Row>, names: seq<string>, fillZero: bool, absentZero: bool)
    requires CastColumns(columns, rows, names, fillZero, absentZero).Success?
    ensures |CastColumns(columns, rows, names, fillZero, absentZero).value| == |rows|
    ensures forall i, c :: 0 <= i < |rows| && c !in names ==>
              Get(CastColumns(columns, rows, names, fillZero, absentZero).value[i], c) == Get(rows[i], c)
    ensures fillZero && absentZero ==> forall i, c :: 0 <= i < |rows| && c in names ==>
              Get(CastColumns(columns, rows, names, fillZero, absentZero).value[i], c).Int?
    decreases |names|
  {
    if |names| > 0 {
      var c := names[0];
      var next := if c in columns then CastColumn(rows, c, fillZero) else if absentZero then ZeroColumn(rows, c) else rows;
      assert CastColumns(columns, rows, names, fillZero, absentZero) == CastColumns(columns, next, names[1..], fillZero, absentZero);
      assert |next| == |rows|;
      assert forall i, x :: 0 <= i < |rows| && x != c ==> Get(next[i], x) == Get(rows[i], x);
      assert fillZero && absentZero ==> forall i :: 0 <= i < |rows| ==> Get(next[i], c).Int?;
      CastColumnsFacts(columns, next, names[1..], fillZero, absentZero);
      var out := CastColumns(columns, rows, names, fillZero, absentZero).value;
      forall i, x | 0 <= i < |rows| && x !in names
        ensures Get(out[i], x) == Get(rows[i], x)
      {
        assert x != c && x !in names[1..];
      }
      if fillZero && absentZero {
        forall i, x | 0 <= i < |rows| && x in names
          ensures Get(out[i], x).Int?
        {
          if x !in names[1..] {
            assert x == c;
          }
        }
      }
    }
  }

  /** The raw delay and distance columns `out` reads. */
  const MeasureSources: seq<string> :=
    ["DEPARTURE_DELAY", "ARRIVAL_DELAY", "DISTANCE", "AIR_SYSTEM_DELAY", "SECURITY_DELAY",
     "AIRLINE_DELAY", "LATE_AIRCRAFT_DELAY", "WEATHER_DELAY"]

  /** A date part after its cast, NaT standing in for a part that could not be cast. */
  function PartCell(r: Row, c: string): Cell {
    match CastCell(Get(r, c), false) case Some(v) => v case None => Null
  }

  /** What a flight holds just before the merges, in terms of its raw row. */
  predicate PreparedFlightOk(columns: seq<string>, raw: Row, p: Row) {
    && Get(p, "CANCELLED").Int? && Get(p, "DIVERTED").Int?
    && PreparedIdentifiersOk(columns, raw, p)
    && PreparedDateOk(columns, raw, p)
    && forall c :: c in MeasureSources ==> Get(p, c) == Get(raw, c)
  }

  predicate PreparedIdentifiersOk(columns: seq<string>, raw: Row, p: Row) {
    && Get(p, "origin") == StrippedOrNull(columns, raw, "ORIGIN_AIRPORT")
    && Get(p, "destination") == StrippedOrNull(columns, raw, "DESTINATION_AIRPORT")
    && Get(p, "flight_number") == StrippedOrNull(columns, raw, "FLIGHT_NUMBER")
    && Get(p, "AIRLINE_CODE") == StrippedOrNull(columns, raw, "AIRLINE")
  }

  predicate PreparedDateOk(columns: seq<string>, raw: Row, p: Row) {
    && (HasParts(columns) ==>
          Get(p, "flight_date") == DateFromParts(PartCell(raw, "YEAR"), PartCell(raw, "MONTH"), PartCell(raw, "DAY")))
    && (!HasParts(columns) ==> Get(p, "flight_date") == FlightDate(columns, raw))
  }

  /** The columns the staging writes are neither date parts, flags nor measures. */
  lemma StagedNamesDistinct()
    ensures forall c :: c in PartColumns ==>
              (&& c != "flight_date" && c != "origin" && c != "destination"
               && c != "flight_number" && c != "AIRLINE_CODE" && c !in MeasureSources
               && c != "ORIGIN_AIRPORT" && c != "DESTINATION_AIRPORT" && c != "FLIGHT_NUMBER" && c != "AIRLINE")
    ensures forall c :: c in FlagColumns ==>
              (&& c != "flight_date" && c != "origin" && c != "destination"
               && c != "flight_number" && c != "AIRLINE_CODE" && c !in MeasureSources)
    ensures forall c :: c in MeasureSources ==>
              (&& c != "flight_date" && c != "origin" && c != "destination"
               && c != "flight_number" && c != "AIRLINE_CODE")
  {
  }

  /** One flight through the staging, given what the part casts and the flag casts did to it. */
  lemma StagedFlightOk(columns: seq<string>, raw: Row, cast: Row, p: Row)
    requires forall c :: c !in PartColumns ==> Get(cast, c) == Get(raw, c)
    requires HasParts(columns) ==>
               Get(cast, "YEAR") == PartCell(raw, "YEAR") && Get(cast, "MONTH") == PartCell(raw, "MONTH")
               && Get(cast, "DAY") == PartCell(raw, "DAY")
    requires forall c :: c !in FlagColumns ==> Get(p, c) == Get(StageFlight(columns, cast), c)
    requires Get(p, "CANCELLED").Int? && Get(p, "DIVERTED").Int?
    ensures PreparedFlightOk(columns, raw, p)
  {
    StagedNamesDistinct();
    StagedIdentifiers(columns, raw, cast, p);
    StagedDate(columns, raw, cast, p);
    StagedMeasures(columns, raw, cast, p);
  }

  lemma StagedIdentifiers(columns: seq<string>, raw: Row, cast: Row, p: Row)
    requires forall c :: c !in PartColumns ==> Get(cast, c) == Get(raw, c)
    requires forall c :: c !in FlagColumns ==> Get(p, c) == Get(StageFlight(columns, cast), c)
    ensures PreparedIdentifiersOk(columns, raw, p)
  {
    StagedNamesDistinct();
    StageFlightFields(columns, cast);
    assert Get(cast, "ORIGIN_AIRPORT") == Get(raw, "ORIGIN_AIRPORT");
    assert Get(cast, "DESTINATION_AIRPORT") == Get(raw, "DESTINATION_AIRPORT");
    assert Get(cast, "FLIGHT_NUMBER") == Get(raw, "FLIGHT_NUMBER");
    assert Get(cast, "AIRLINE") == Get(raw, "AIRLINE");
  }

  /** The five derived columns read back, and every other column as it was. */
  lemma WithStagedReads(r: Row, date: Cell, origin: Cell, destination: Cell, number: Cell, code: Cell)
    ensures var w := WithStaged(r, date, origin, destination, number, code);
            && Get(w, "flight_date") == date && Get(w, "origin") == origin
            && Get(w, "destination") == destination && Get(w, "flight_number") == number
            && Get(w, "AIRLINE_CODE") == code
    ensures forall c :: c != "flight_date" && c != "origin" && c != "destination" && c != "flight_number" && c != "AIRLINE_CODE" ==>
              Get(WithStaged(r, date, origin, destination, number, code), c) == Get(r, c)
  {
    assert "flight_date"[0] != "destination"[0];
    assert "flight_date"[7] != "flight_number"[7];
  }

  /** The columns the staging writes, read back. */
  lemma StageFlightFields(columns: seq<string>, r: Row)
    ensures var staged := StageFlight(columns, r);
            && Get(staged, "flight_date") == FlightDate(columns, r)
            && Get(staged, "origin") == StrippedOrNull(columns, r, "ORIGIN_AIRPORT")
            && Get(staged, "destination") == StrippedOrNull(columns, r, "DESTINATION_AIRPORT")
            && Get(staged, "flight_number") == StrippedOrNull(columns, r, "FLIGHT_NUMBER")
            && Get(staged, "AIRLINE_CODE") == StrippedOrNull(columns, r, "AIRLINE")
  {
    WithStagedReads(r, FlightDate(columns, r), StrippedOrNull(columns, r, "ORIGIN_AIRPORT"),
                    StrippedOrNull(columns, r, "DESTINATION_AIRPORT"), StrippedOrNull(columns, r, "FLIGHT_NUMBER"),
                    StrippedOrNull(columns, r, "AIRLINE"));
  }

  /** A column the staging does not write reads the same after it. */
  lemma StageFlightKeeps(columns: seq<string>, r: Row, c: string)
    requires c != "flight_date" && c != "origin" && c != "destination" && c != "flight_number" && c != "AIRLINE_CODE"
    ensures Get(StageFlight(columns, r), c) == Get(r, c)
  {
    WithStagedReads(r, FlightDate(columns, r), StrippedOrNull(columns, r, "ORIGIN_AIRPORT"),
                    StrippedOrNull(columns, r, "DESTINATION_AIRPORT"), StrippedOrNull(columns, r, "FLIGHT_NUMBER"),
                    StrippedOrNull(columns, r, "AIRLINE"));
  }

  lemma StagedDate(columns: seq<string>, raw: Row, cast: Row, p: Row)
    requires forall c :: c !in PartColumns ==> Get(cast, c) == Get(raw, c)
    requires HasParts(columns) ==>
               Get(cast, "YEAR") == PartCell(raw, "YEAR") && Get(cast, "MONTH") == PartCell(raw, "MONTH")
               && Get(cast, "DAY") == PartCell(raw, "DAY")
    requires forall c :: c !in FlagColumns ==> Get(p, c) == Get(StageFlight(columns, cast), c)
    ensures PreparedDateOk(columns, raw, p)
  {
    assert "flight_date" !in FlagColumns;
    FallbackUnchanged(columns, raw, cast);
    StageFlightFields(columns, cast);
  }

  lemma StagedMeasures(columns: seq<string>, raw: Row, cast: Row, p: Row)
    requires forall c :: c !in PartColumns ==> Get(cast, c) == Get(raw, c)
    requires forall c :: c !in FlagColumns ==> Get(p, c) == Get(StageFlight(columns, cast), c)
    ensures forall c :: c in MeasureSources ==> Get(p, c) == Get(raw, c)
  {
    StagedNamesDistinct();
    forall c | c in MeasureSources
      ensures Get(p, c) == Get(raw, c)
    {
      StageFlightKeeps(columns, cast, c);
    }
  }

  /**
   * Every flight survives the casts and the derived columns as one row: its
   * flags are ints, its identifiers the stripped raw strings (None for an absent
   * column), its date from the cast parts or the fallback column, and its
   * measures as read.
   */
  lemma PreparedFlightsFacts(flights: Frame)
    requires PreparedFlights(flights).Success?
    ensures |PreparedFlights(flights).value| == |flights.rows|
    ensures forall i :: 0 <= i < |flights.rows| ==>
              PreparedFlightOk(flights.columns, flights.rows[i], PreparedFlights(flights).value[i])
  {
    var columns := flights.columns;
    var rows := CastColumns(columns, flights.rows, PartColumns, false, false).value;
    CastColumnsFacts(columns, flights.rows, PartColumns, false, false);
    var staged := seq(|rows|, i requires 0 <= i < |rows| => StageFlight(columns, rows[i]));
    var out := PreparedFlights(flights).value;
    CastColumnsFacts(columns, staged, FlagColumns, true, true);
    assert "CANCELLED" in FlagColumns && "DIVERTED" in FlagColumns;
    forall i | 0 <= i < |flights.rows|
      ensures PreparedFlightOk(columns, flights.rows[i], out[i])
    {
      PartsCast(columns, flights.rows, i);
      StagedFlightOk(columns, flights.rows[i], rows[i], out[i]);
    }
  }

  /** After the part casts, each part of each row is its `PartCell` value. */
  lemma PartsCast(columns: seq<string>, rows: seq<Row>, i: nat)
    requires CastColumns(columns, rows, PartColumns, false, false).Success?
    requires i < |rows|
    ensures |CastColumns(columns, rows, PartColumns, false, false).value| == |rows|
    ensures HasParts(columns) ==>
              var p := CastColumns(columns, rows, PartColumns, false, false).value[i];
              Get(p, "YEAR") == PartCell(rows[i], "YEAR") && Get(p, "MONTH") == PartCell(rows[i], "MONTH")
              && Get(p, "DAY") == PartCell(rows[i], "DAY")
  {
    CastColumnsFacts(columns, rows, PartColumns, false, false);
    if HasParts(columns) {
      var r1 := CastColumn(rows, "YEAR", false);
      var r2 := CastColumn(r1, "MONTH", false);
      var r3 := CastColumn(r2, "DAY", false);
      assert PartColumns[1..] == ["MONTH", "DAY"];
      assert PartColumns[1..][1..] == ["DAY"];
      assert CastColumns(columns, rows, PartColumns, false, false) == Success(r3);
    }
  }

  /** The fallback date columns are not date parts, so the part casts leave the fallback date as it was. */
  lemma FallbackUnchanged(columns: seq<string>, raw: Row, cast: Row)
    requires forall c :: c !in PartColumns ==> Get(cast, c) == Get(raw, c)
    ensures !HasParts(columns) ==> FlightDate(columns, cast) == FlightDate(columns, raw)
  {
    if !HasParts(columns) {
      match FirstIn(DateFallbacks, columns)
      case Some(col) =>
        assert col !in PartColumns;
      case None =>
    }
  }

  /** The columns the merges add. */
  predicate Enrichment(c: string) {
    c == "airline_name" || c in OriginFields || c in DestFields
  }

  lemma LookupShapes(airlines: Frame, name: string, airports: Frame)
    ensures LookupShape(AirlineLookup(airlines, name), AirlineNulls)
    ensures LookupShape(AirportLookup(airports, OriginFields), NullRow(OriginFields))
    ensures LookupShape(AirportLookup(airports, DestFields), NullRow(DestFields))
  {
    AirportLookupShape(airports, OriginFields);
    AirportLookupShape(airports, DestFields);
  }

  lemma AirportLookupShape(airports: Frame, names: seq<string>)
    requires |names| == |AirportSources|
    ensures LookupShape(AirportLookup(airports, names), NullRow(names))
  {
    var lookup := AirportLookup(airports, names);
    forall j | 0 <= j < |lookup|
      ensures lookup[j].fields.Keys == NullRow(names).Keys
    {
      assert lookup[j].fields == Project(airports.rows[j], AirportSources, names);
    }
  }

  /** Each merged row reads, outside the added columns, exactly as some prepared flight. */
  lemma MergedRowOrigin(rows: seq<Row>, airlines: Frame, name: string, airports: Frame, k: nat)
    requires k < |Merged(rows, airlines, name, airports)|
    ensures exists i :: 0 <= i < |rows| && forall c :: !Enrichment(c) ==> Get(Merged(rows, airlines, name, airports)[k], c) == Get(rows[i], c)
  {
    LookupShapes(airlines, name, airports);
    var n2 := NullRow(OriginFields);
    var n3 := NullRow(DestFields);
    var m3 := Merged(rows, airlines, name, airports);
    ChainedJoinRowOrigin(rows, "AIRLINE_CODE", AirlineLookup(airlines, name), AirlineNulls,
                         "origin", AirportLookup(airports, OriginFields), n2,
                         "destination", AirportLookup(airports, DestFields), n3, m3[k]);
    var i :| 0 <= i < |rows| && forall c :: c !in AirlineNulls && c !in n2 && c !in n3 ==> Get(m3[k], c) == Get(rows[i], c);
    forall c | !Enrichment(c)
      ensures Get(m3[k], c) == Get(rows[i], c)
    {
      assert c !in AirlineNulls && c !in n2.Keys && c !in n3.Keys;
    }
  }

  /** The merges keep every flight. */
  lemma MergedKeepsFlights(rows: seq<Row>, airlines: Frame, name: string, airports: Frame)
    ensures |Merged(rows, airlines, name, airports)| >= |rows|
  {
    var m1 := LeftJoin(rows, "AIRLINE_CODE", AirlineLookup(airlines, name), AirlineNulls);
    var m2 := LeftJoin(m1, "origin", AirportLookup(airports, OriginFields), NullRow(OriginFields));
    LeftJoinKeepsRows(rows, "AIRLINE_CODE", AirlineLookup(airlines, name), AirlineNulls);
    LeftJoinKeepsRows(m1, "origin", AirportLookup(airports, OriginFields), NullRow(OriginFields));
    LeftJoinKeepsRows(m2, "destination", AirportLookup(airports, DestFields), NullRow(DestFields));
  }

  /** What an `out` row holds, in terms of the raw flight it came from. */
  predicate OutFromFlight(columns: seq<string>, raw: Row, o: FlightRecord) {
    && o.cancelled.Int? && o.diverted.Int?
    && o.origin == StrippedOrNull(columns, raw, "ORIGIN_AIRPORT")
    && o.destination == StrippedOrNull(columns, raw, "DESTINATION_AIRPORT")
    && o.flightNumber == StrippedOrNull(columns, raw, "FLIGHT_NUMBER")
    && o.depDelay == ToNumeric(Get(raw, "DEPARTURE_DELAY"))
    && o.arrDelay == ToNumeric(Get(raw, "ARRIVAL_DELAY"))
    && o.distance == ToNumeric(Get(raw, "DISTANCE"))
    && (HasParts(columns) ==>
          o.flightDate == DateFromParts(PartCell(raw, "YEAR"), PartCell(raw, "MONTH"), PartCell(raw, "DAY")))
    && (!HasParts(columns) ==> o.flightDate == FlightDate(columns, raw))
  }

  /** A prepared flight, whatever the merges add to it, becomes an `out` row that reads as its raw flight. */
  lemma OutRecordFromFlight(columns: seq<string>, raw: Row, p: Row, f: Row)
    requires PreparedFlightOk(columns, raw, p)
    requires forall c :: !Enrichment(c) ==> Get(f, c) == Get(p, c)
    ensures OutFromFlight(columns, raw, OutRecord(f))
    ensures Get(f, "AIRLINE_CODE") == StrippedOrNull(columns, raw, "AIRLINE")
  {
    OutSourcesNotEnrichment();
    assert "DEPARTURE_DELAY" in MeasureSources && "ARRIVAL_DELAY" in MeasureSources && "DISTANCE" in MeasureSources;
    var o := OutRecord(f);
    assert o.cancelled == Get(p, "CANCELLED") && o.diverted == Get(p, "DIVERTED");
    assert o.origin == Get(p, "origin") && o.destination == Get(p, "destination");
    assert o.flightNumber == Get(p, "flight_number") && o.flightDate == Get(p, "flight_date");
    assert o.depDelay == ToNumeric(Get(raw, "DEPARTURE_DELAY"));
    assert o.arrDelay == ToNumeric(Get(raw, "ARRIVAL_DELAY"));
    assert o.distance == ToNumeric(Get(raw, "DISTANCE"));
  }

  /** The merges add none of the columns `out` takes from the flight itself. */
  lemma OutSourcesNotEnrichment()
    ensures !Enrichment("CANCELLED") && !Enrichment("DIVERTED") && !Enrichment("flight_date")
    ensures !Enrichment("origin") && !Enrichment("destination") && !Enrichment("flight_number")
    ensures !Enrichment("AIRLINE_CODE")
    ensures !Enrichment("DEPARTURE_DELAY") && !Enrichment("ARRIVAL_DELAY") && !Enrichment("DISTANCE")
  {
    FlagsNotAdded();
    DateAndCodeNotAdded();
    RouteNotAdded();
    FlightNumberNotAdded();
    DelaysNotAdded();
    DistanceNotAdded();
  }

  lemma FlagsNotAdded()
    ensures !Enrichment("CANCELLED") && !Enrichment("DIVERTED")
  {
  }

  lemma DateAndCodeNotAdded()
    ensures !Enrichment("flight_date") && !Enrichment("AIRLINE_CODE")
  {
  }

  lemma RouteNotAdded()
    ensures !Enrichment("origin") && !Enrichment("destination")
  {
  }

  lemma FlightNumberNotAdded()
    ensures !Enrichment("flight_number")
  {
  }

  lemma DelaysNotAdded()
    ensures !Enrichment("DEPARTURE_DELAY") && !Enrichment("ARRIVAL_DELAY")
  {
  }

  lemma DistanceNotAdded()
    ensures !Enrichment("DISTANCE")
  {
  }


  ghost predicate FromSomeFlight(flights: Frame, o: FlightRecord) {
    exists i :: 0 <= i < |flights.rows| && OutFromFlight(flights.columns, flights.rows[i], o)
  }

  /**
   * Every flight reaches `out` (duplicate lookup keys can only add rows), and
   * every `out` row reads as one of the raw flights: flags are ints, identifiers
   * stripped strings, delays and distance coerced numbers.
   */
  lemma OutRowsFromFlights(flights: Frame, airlines: Frame, airports: Frame)
    requires FlightDelayTable(flights, airlines, airports).Success?
    ensures |FlightDelayTable(flights, airlines, airports).value| >= |flights.rows|
    ensures forall k :: 0 <= k < |FlightDelayTable(flights, airlines, airports).value| ==>
              FromSomeFlight(flights, FlightDelayTable(flights, airlines, airports).value[k])
  {
    PreparedFlightsFacts(flights);
    var rows := PreparedFlights(flights).value;
    var name := AirlineNameColumn(airlines.columns).value;
    var merged := Merged(rows, airlines, name, airports);
    var out := FlightDelayTable(flights, airlines, airports).value;
    assert out == OutTable(merged);
    MergedKeepsFlights(rows, airlines, name, airports);
    forall k | 0 <= k < |out|
      ensures FromSomeFlight(flights, out[k])
    {
      MergedRowOrigin(rows, airlines, name, airports, k);
      var i :| 0 <= i < |rows| && forall c :: !Enrichment(c) ==> Get(merged[k], c) == Get(rows[i], c);
      OutRecordFromFlight(flights.columns, flights.rows[i], rows[i], merged[k]);
    }
  }

  /** The name column of the first airline row whose IATA_CODE is `code`; missing when no row has it. */
  function MatchedAirlineName(airlines: Frame, name: string, code: Cell): (n: Cell)
    ensures (forall j :: 0 <= j < |airlines.rows| ==> Get(airlines.rows[j], "IATA_CODE") != code) ==> n == Null
    ensures !n.Null? ==> exists j :: 0 <= j < |airlines.rows| && Get(airlines.rows[j], "IATA_CODE") == code
                                    && n == Get(airlines.rows[j], name)
  {
    var lookup := AirlineLookup(airlines, name);
    var ms := Matches(lookup, code);
    if |ms| == 0 then Null
    else
      assert ms[0] in ms;
      Get(ms[0], "airline_name")
  }

  /** Unique codes make every lookup's keys unique. */
  lemma UniqueLookups(airlines: Frame, name: string, airports: Frame)
    requires UniqueCodes(airlines) && UniqueCodes(airports)
    ensures UniqueKeys(AirlineLookup(airlines, name))
    ensures UniqueKeys(AirportLookup(airports, OriginFields)) && UniqueKeys(AirportLookup(airports, DestFields))
  {
    UniqueAirlineLookup(airlines, name);
    var l2 := AirportLookup(airports, OriginFields);
    assert forall j :: 0 <= j < |l2| ==> l2[j].key == Get(airports.rows[j], "IATA_CODE");
    var l3 := AirportLookup(airports, DestFields);
    assert forall j :: 0 <= j < |l3| ==> l3[j].key == Get(airports.rows[j], "IATA_CODE");
  }

  lemma UniqueAirlineLookup(airlines: Frame, name: string)
    requires UniqueCodes(airlines)
    ensures UniqueKeys(AirlineLookup(airlines, name))
  {
    var l1 := AirlineLookup(airlines, name);
    assert forall j :: 0 <= j < |l1| ==> l1[j].key == Get(airlines.rows[j], "IATA_CODE");
  }

  lemma AirlineNameNotAirport()
    ensures "airline_name" !in OriginFields && "airline_name" !in DestFields
  {
  }

  /**
   * With unique codes, the merges go row for row: merged flight `i` reads as
   * prepared flight `i` outside the added columns, and its airline name is the
   * one matched on its code.
   */
  lemma MergedUnique(rows: seq<Row>, airlines: Frame, name: string, airports: Frame)
    requires UniqueCodes(airlines) && UniqueCodes(airports)
    ensures |Merged(rows, airlines, name, airports)| == |rows|
    ensures forall i, c :: 0 <= i < |rows| && !Enrichment(c) ==> Get(Merged(rows, airlines, name, airports)[i], c) == Get(rows[i], c)
    ensures forall i :: 0 <= i < |rows| ==>
              Get(Merged(rows, airlines, name, airports)[i], "airline_name")
              == MatchedAirlineName(airlines, name, Get(rows[i], "AIRLINE_CODE"))
  {
    LookupShapes(airlines, name, airports);
    UniqueLookups(airlines, name, airports);
    var l1 := AirlineLookup(airlines, name);
    var n2 := NullRow(OriginFields);
    var n3 := NullRow(DestFields);
    ChainedJoinUnique(rows, "AIRLINE_CODE", l1, AirlineNulls, "origin", AirportLookup(airports, OriginFields), n2,
                      "destination", AirportLookup(airports, DestFields), n3);
    MergedKeepsOthers(rows, airlines, name, airports);
    MergedAirlineName(rows, airlines, name, airports);
  }

  lemma MergedKeepsOthers(rows: seq<Row>, airlines: Frame, name: string, airports: Frame)
    requires |Merged(rows, airlines, name, airports)| == |rows|
    requires var n2 := NullRow(OriginFields);
             var n3 := NullRow(DestFields);
             var m1 := LeftJoin(rows, "AIRLINE_CODE", AirlineLookup(airlines, name), AirlineNulls);
             && |m1| == |rows|
             && (forall i, c :: 0 <= i < |rows| && c !in n2 && c !in n3 ==> Get(Merged(rows, airlines, name, airports)[i], c) == Get(m1[i], c))
             && (forall i, c :: 0 <= i < |rows| && c !in AirlineNulls ==> Get(m1[i], c) == Get(rows[i], c))
    ensures forall i, c :: 0 <= i < |rows| && !Enrichment(c) ==> Get(Merged(rows, airlines, name, airports)[i], c) == Get(rows[i], c)
  {
    var n2 := NullRow(OriginFields);
    var n3 := NullRow(DestFields);
    forall i, c | 0 <= i < |rows| && !Enrichment(c)
      ensures Get(Merged(rows, airlines, name, airports)[i], c) == Get(rows[i], c)
    {
      assert c !in AirlineNulls && c !in n2.Keys && c !in n3.Keys;
    }
  }

  lemma MergedAirlineName(rows: seq<Row>, airlines: Frame, name: string, airports: Frame)
    requires UniqueCodes(airlines)
    requires |Merged(rows, airlines, name, airports)| == |rows|
    requires var n2 := NullRow(OriginFields);
             var n3 := NullRow(DestFields);
             var m1 := LeftJoin(rows, "AIRLINE_CODE", AirlineLookup(airlines, name), AirlineNulls);
             && |m1| == |rows|
             && (forall i, c :: 0 <= i < |rows| && c !in n2 && c !in n3 ==> Get(Merged(rows, airlines, name, airports)[i], c) == Get(m1[i], c))
    ensures forall i :: 0 <= i < |rows| ==>
              Get(Merged(rows, airlines, name, airports)[i], "airline_name")
              == MatchedAirlineName(airlines, name, Get(rows[i], "AIRLINE_CODE"))
  {
    LookupShapes(airlines, name, airports);
    UniqueAirlineLookup(airlines, name);
    AirlineNameNotAirport();
    var l1 := AirlineLookup(airlines, name);
    var n2 := NullRow(OriginFields);
    var n3 := NullRow(DestFields);
    var m1 := LeftJoin(rows, "AIRLINE_CODE", l1, AirlineNulls);
    assert "airline_name" !in n2.Keys && "airline_name" !in n3.Keys;
    forall i | 0 <= i < |rows|
      ensures Get(Merged(rows, airlines, name, airports)[i], "airline_name")
              == MatchedAirlineName(airlines, name, Get(rows[i], "AIRLINE_CODE"))
    {
      LeftJoinUniqueAdds(rows, "AIRLINE_CODE", l1, AirlineNulls, i, "airline_name");
      var ms := Matches(l1, Get(rows[i], "AIRLINE_CODE"));
      assert Get(m1[i], "airline_name") == if |ms| == 0 then Null else Get(ms[0], "airline_name");
    }
  }

  /**
   * With unique codes in both lookup tables, `out` has one row per flight, in
   * order: row `i` reads as flight `i`, and its airline is the name matched on
   * the flight's code, or the code itself when no name matched.
   */
  lemma OutRowPerFlight(flights: Frame, airlines: Frame, airports: Frame)
    requires FlightDelayTable(flights, airlines, airports).Success?
    requires UniqueCodes(airlines) && UniqueCodes(airports)
    ensures |FlightDelayTable(flights, airlines, airports).value| == |flights.rows|
    ensures forall i :: 0 <= i < |flights.rows| ==>
              OutFromFlight(flights.columns, flights.rows[i], FlightDelayTable(flights, airlines, airports).value[i])
    ensures forall i :: 0 <= i < |flights.rows| ==>
              var code := StrippedOrNull(flights.columns, flights.rows[i], "AIRLINE");
              FlightDelayTable(flights, airlines, airports).value[i].airline
              == FillNa(MatchedAirlineName(airlines, AirlineNameColumn(airlines.columns).value, code), code)
  {
    PreparedFlightsFacts(flights);
    var rows := PreparedFlights(flights).value;
    var name := AirlineNameColumn(airlines.columns).value;
    var merged := Merged(rows, airlines, name, airports);
    var out := FlightDelayTable(flights, airlines, airports).value;
    assert out == OutTable(merged);
    MergedUnique(rows, airlines, name, airports);
    forall i | 0 <= i < |flights.rows|
      ensures OutFromFlight(flights.columns, flights.rows[i], out[i])
      ensures var code := StrippedOrNull(flights.columns, flights.rows[i], "AIRLINE");
              out[i].airline == FillNa(MatchedAirlineName(airlines, name, code), code)
    {
      OutRecordFromFlight(flights.columns, flights.rows[i], rows[i], merged[i]);
    }
  }

  /** With unique codes, the matched name is the name on the one airline row with that code. */
  lemma MatchedAirlineNameUnique(airlines: Frame, name: string, code: Cell, j: nat)
    requires UniqueCodes(airlines)
    requires j < |airlines.rows| && Get(airlines.rows[j], "IATA_CODE") == code
    ensures MatchedAirlineName(airlines, name, code) == Get(airlines.rows[j], name)
  {
    var lookup := AirlineLookup(airlines, name);
    UniqueAirlineLookup(airlines, name);
    assert lookup[j].key == code;
    UniqueMatches(lookup, code);
    var ms := Matches(lookup, code);
    assert ms[0] in ms;
    var j' :| 0 <= j' < |lookup| && lookup[j'].key == code && lookup[j'].fields == ms[0];
    assert j' == j;
  }
}
