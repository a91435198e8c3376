/**
 * `utils/ml_utils.py`: looking a column up by candidate names, the hour of an
 * HHMM departure time, and the feature and label table `train_delay_model`
 * builds before it hands the frame to the learner.
 */
module MlUtils {
  import opened Wrappers
  import opened Numbers
  import opened Strings
  import opened Calendar
  import opened Frames

  // ---------------------------------------------------------------
  // find_col
  // ---------------------------------------------------------------

  /** The first column equal to `cand` up to ASCII case, scanning the columns in order. */
  function LowerMatch(columns: seq<string>, cand: string): (r: Option<string>)
    ensures r.Some? ==> r.value in columns && Lower(r.value) == Lower(cand)
    ensures r.None? <==> forall j :: 0 <= j < |columns| ==> Lower(columns[j]) != Lower(cand)
  {
    if |columns| == 0 then None
    else if Lower(columns[0]) == Lower(cand) then Some(columns[0])
    else
      var r := LowerMatch(columns[1..], cand);
      assert forall j :: 1 <= j < |columns| ==> columns[j] == columns[1..][j - 1];
      r
  }

  /** The column one candidate selects: itself when it is a column name, else its first case-insensitive match. */
  function CandidateMatch(columns: seq<string>, cand: string): (r: Option<string>)
    ensures r.Some? ==> r.value in columns
    ensures r.None? <==> forall j :: 0 <= j < |columns| ==> Lower(columns[j]) != Lower(cand)
  {
    if cand in columns then Some(cand) else LowerMatch(columns, cand)
  }

  /** The case-insensitive scan returns the first column that matches. */
  lemma {:induction false} LowerMatchFirst(columns: seq<string>, cand: string, j: nat)
    requires j < |columns| && Lower(columns[j]) == Lower(cand)
    requires forall j' :: 0 <= j' < j ==> Lower(columns[j']) != Lower(cand)
    ensures LowerMatch(columns, cand) == Some(columns[j])
  {
    if j > 0 {
      LowerMatchFirst(columns[1..], cand, j - 1);
    }
  }

  /**
   * `find_col`: the first candidate, in candidate order, that names a column
   * exactly or up to case; an exact name wins over a case-insensitive one for
   * the same candidate. None exactly when no candidate matches any column.
   */
  method FindCol(columns: seq<string>, candidates: seq<string>) returns (r: Option<string>)
    ensures r.None? <==> forall k :: 0 <= k < |candidates| ==> CandidateMatch(columns, candidates[k]).None?
    ensures r.Some? ==> r.value in columns
    ensures r.Some? ==> exists k :: 0 <= k < |candidates| && CandidateMatch(columns, candidates[k]) == r
                          && forall k' :: 0 <= k' < k ==> CandidateMatch(columns, candidates[k']).None?
  {
    var k := 0;
    while k < |candidates|
      invariant 0 <= k <= |candidates|
      invariant forall k' :: 0 <= k' < k ==> CandidateMatch(columns, candidates[k']).None?
    {
      var cand := candidates[k];
      if cand in columns {
        return Some(cand);
      }
      var j := 0;
      while j < |columns|
        invariant 0 <= j <= |columns|
        invariant forall j' :: 0 <= j' < j ==> Lower(columns[j']) != Lower(cand)
      {
        if Lower(columns[j]) == Lower(cand) {
          LowerMatchFirst(columns, cand, j);
          return Some(columns[j]);
        }
        j := j + 1;
      }
      k := k + 1;
    }
    return None;
  }

  // ---------------------------------------------------------------
  // extract_hour
  // ---------------------------------------------------------------

  /**
   * `extract_hour`: `int(float(v)) // 100`, the hour of an HHMM time; a value
   * `float()` or `int()` rejects (missing, NaN, a date, unparsable text) gives NaN.
   */
  function ExtractHour(c: Cell): (r: Cell)
    ensures r.Null? || r.Int?
    ensures c.Int? ==> r.Int? && r.i * 100 <= c.i < r.i * 100 + 100
    ensures c.Num? ==> r.Int? && r.i * 100 <= Trunc(c.x) < r.i * 100 + 100
    ensures c.Text? ==> (r.Null? <==> ParseNumber(c.s).None?)
    ensures c.Text? && ParseNumber(c.s).Some? ==>
      r.Int? && r.i * 100 <= Trunc(ParseNumber(c.s).value) < r.i * 100 + 100
    ensures c.Bool? ==> r == Int(0)
    ensures c.Null? || c.Day? ==> r.Null?
  {
    match c
    case Int(v) => Int(v / 100)
    case Num(x) => Int(Trunc(x) / 100)
    case Text(s) => (match ParseNumber(s) case Some(x) => Int(Trunc(x) / 100) case None => Null)
    case Bool(b) => Int(0)
    case _ => Null
  }

  /** An HHMM time of day yields its hour, 0..23. */
  lemma HourOfDay(v: int)
    requires 0 <= v < 2400
    ensures ExtractHour(Int(v)).Int? && 0 <= ExtractHour(Int(v)).i <= 23
    ensures ExtractHour(Int(v)).i == (v - v % 100) / 100
  {
  }

  lemma ExtractHourExamples()
    ensures ExtractHour(Int(1430)) == Int(14)
    ensures ExtractHour(Int(45)) == Int(0)
    ensures ExtractHour(Num(1430.0)) == Int(14)
    ensures ExtractHour(Num(-0.5)) == Int(0)
    ensures ExtractHour(Null) == Null
  {
  }

  // ---------------------------------------------------------------
  // train_delay_model, up to the frame handed to the learner
  // ---------------------------------------------------------------

  const Categorical: seq<string> := ["airline", "origin", "destination", "crs_dep_hour"]
  const Numeric: seq<string> := ["distance", "dep_delay", "taxi_out", "month", "dayofweek"]

  /** The feature table's columns, in order. */
  const FeatureColumns: seq<string> := Categorical + Numeric

  /** The columns the preparation reads with `df[c]`, in the order it reads them. */
  const RequiredColumns: seq<string> :=
    ["flight_date", "airline", "origin", "destination", "arr_delay", "dep_delay", "distance", "taxi_out"]

  /** `df[c]` on a column the frame lacks raises KeyError. */
  datatype PrepError = MissingColumn(name: string)

  /** The hour column: kept when the frame has one, else derived from `CRSDepTime`, else NaN. */
  function HourCell(columns: seq<string>, r: Row): Cell {
    if "crs_dep_hour" in columns then Get(r, "crs_dep_hour")
    else if "CRSDepTime" in columns then ExtractHour(Get(r, "CRSDepTime"))
    else Null
  }

  /** `.dt.month` and `.dt.weekday` of a coerced date: NaN for NaT. */
  function MonthCell(date: Cell): Cell
    requires date.Null? || IsTimestamp(date)
  {
    if date.Day? then Int(date.d.month) else Null
  }

  function WeekdayCell(date: Cell): Cell
    requires date.Null? || IsTimestamp(date)
  {
    if date.Day? then Int(Weekday(date.d)) else Null
  }

  /** The column assignments of the preparation, for one row. */
  function PrepareRow(columns: seq<string>, r: Row): Row {
    var date := ToDatetime(Get(r, "flight_date"));
    r["flight_date" := date]
     ["airline" := Text(AsStr(Get(r, "airline")))]
     ["origin" := Text(AsStr(Get(r, "origin")))]
     ["destination" := Text(AsStr(Get(r, "destination")))]
     ["arr_delay" := ToNumeric(Get(r, "arr_delay"))]
     ["dep_delay" := ToNumeric(Get(r, "dep_delay"))]
     ["distance" := ToNumeric(Get(r, "distance"))]
     ["taxi_out" := ToNumeric(Get(r, "taxi_out"))]
     ["crs_dep_hour" := HourCell(columns, r)]
     ["month" := MonthCell(date)]
     ["dayofweek" := WeekdayCell(date)]
  }

  /** `(arr_delay > 15).astype(int)`. */
  function IsDelayed(arrDelay: real): int {
    if arrDelay > 15.0 then 1 else 0
  }

  /** The prepared row and its label, or None when its arrival delay is missing (`dropna`). */
  function LabelRow(columns: seq<string>, r: Row): Option<(Row, int)> {
    match NumberOf(ToNumeric(Get(r, "arr_delay")))
    case Some(a) => Some((PrepareRow(columns, r), IsDelayed(a)))
    case None => None
  }

  function LabelledRows(df: Frame): seq<(Row, int)> {
    Present(seq(|df.rows|, i requires 0 <= i < |df.rows| => LabelRow(df.columns, df.rows[i])))
  }

  /**
   * `df.sample(frac=...)` happens only when `0 < frac < 1`; the rows it draws
   * (a random choice) are given as positions `pick`.
   */
  function Sampled<T>(rows: seq<T>, frac: real, pick: seq<nat>): seq<T>
    requires forall k :: 0 <= k < |pick| ==> pick[k] < |rows|
  {
    if 0.0 < frac < 1.0 then seq(|pick|, k requires 0 <= k < |pick| => rows[pick[k]]) else rows
  }

  /** One feature value after filling: "UNK" for a missing categorical, -1 for a missing number. */
  function FeatureValue(c: string, v: Cell): Cell {
    if c in Categorical then FillNa(v, Text("UNK")) else FillNa(v, Num(-1.0))
  }

  /** `df[CATEGORICAL + NUMERIC]` for one prepared row, filled. */
  function FeatureRow(p: Row): Row {
    map c | c in FeatureColumns :: FeatureValue(c, Get(p, c))
  }

  /** The feature frame `X` and the labels `y` the learner receives. */
  function TrainingTable(df: Frame, frac: real, pick: seq<nat>): (Frame, seq<int>)
    requires forall k :: 0 <= k < |pick| ==> pick[k] < |LabelledRows(df)|
  {
    var s := Sampled(LabelledRows(df), frac, pick);
    (Frame(FeatureColumns, seq(|s|, k requires 0 <= k < |s| => FeatureRow(s[k].0))),
     seq(|s|, k requires 0 <= k < |s| => s[k].1))
  }

  /** `df.dropna(subset=["arr_delay"])` with the prepared columns and the label, row by row. */
  method LabelRows(df: Frame) returns (labelled: seq<(Row, int)>)
    ensures labelled == LabelledRows(df)
  {
    ghost var outcomes := seq(|df.rows|, i requires 0 <= i < |df.rows| => LabelRow(df.columns, df.rows[i]));
    labelled := [];
    var i := 0;
    while i < |df.rows|
      invariant 0 <= i <= |df.rows|
      invariant labelled == Present(outcomes[..i])
    {
      assert outcomes[..i + 1][..i] == outcomes[..i];
      var o := LabelRow(df.columns, df.rows[i]);
      if o.Some? {
        labelled := labelled + [o.value];
      }
      i := i + 1;
    }
    assert outcomes[..|df.rows|] == outcomes;
  }

  /** `if 0 < frac < 1: df = df.sample(frac=frac)`, the drawn positions given. */
  method SampleRows<T>(rows: seq<T>, frac: real, pick: seq<nat>) returns (drawn: seq<T>)
    requires forall k :: 0 <= k < |pick| ==> pick[k] < |rows|
    ensures drawn == Sampled(rows, frac, pick)
  {
    if !(0.0 < frac < 1.0) {
      return rows;
    }
    drawn := [];
    var k := 0;
    while k < |pick|
      invariant 0 <= k <= |pick|
      invariant |drawn| == k && forall j :: 0 <= j < k ==> drawn[j] == rows[pick[j]]
    {
      drawn := drawn + [rows[pick[k]]];
      k := k + 1;
    }
  }

  /** `X = df[CATEGORICAL + NUMERIC]` filled, and `y = df["is_delayed"]`. */
  method FeaturesAndLabels(rows: seq<(Row, int)>) returns (x: Frame, y: seq<int>)
    ensures x.columns == FeatureColumns
    ensures |x.rows| == |rows| == |y|
    ensures forall k :: 0 <= k < |rows| ==> x.rows[k] == FeatureRow(rows[k].0) && y[k] == rows[k].1
  {
    var xs: seq<Row> := [];
    y := [];
    var k := 0;
    while k < |rows|
      invariant 0 <= k <= |rows|
      invariant |xs| == k && |y| == k
      invariant forall j :: 0 <= j < k ==> xs[j] == FeatureRow(rows[j].0) && y[j] == rows[j].1
    {
      xs := xs + [FeatureRow(rows[k].0)];
      y := y + [rows[k].1];
      k := k + 1;
    }
    x := Frame(FeatureColumns, xs);
  }

  /**
   * The feature and label part of `train_delay_model`: KeyError on the first
   * column it reads that the frame lacks; otherwise the filled feature frame and
   * the labels of the rows with an arrival delay, sampled when `0 < frac < 1`.
   */
  method PrepareDelayTraining(df: Frame, frac: real, pick: seq<nat>) returns (result: Result<(Frame, seq<int>), PrepError>)
    requires forall k :: 0 <= k < |pick| ==> pick[k] < |LabelledRows(df)|
    ensures FirstMissingColumn(df.columns, RequiredColumns).Some? ==>
              result == Failure(MissingColumn(FirstMissingColumn(df.columns, RequiredColumns).value))
    ensures FirstMissingColumn(df.columns, RequiredColumns).None? ==>
              result == Success(TrainingTable(df, frac, pick))
  {
    var missing := FirstMissingColumn(df.columns, RequiredColumns);
    if missing.Some? {
      return Failure(MissingColumn(missing.value));
    }
    var labelled := LabelRows(df);
    var drawn := SampleRows(labelled, frac, pick);
    var x, y := FeaturesAndLabels(drawn);
    ghost var table := TrainingTable(df, frac, pick);
    assert x.rows == table.0.rows;
    assert y == table.1;
    return Success((x, y));
  }

  // ---------------------------------------------------------------
  // Properties of the training table
  // ---------------------------------------------------------------

  /** A row is labelled exactly when its arrival delay is a number; the label is 1 exactly above 15 minutes. */
  lemma LabelRowSpec(columns: seq<string>, r: Row)
    ensures LabelRow(columns, r).Some? <==> !ToNumeric(Get(r, "arr_delay")).Null?
    ensures LabelRow(columns, r).Some? ==>
              var a := NumberOf(ToNumeric(Get(r, "arr_delay"))).value;
              && LabelRow(columns, r).value.0 == PrepareRow(columns, r)
              && (LabelRow(columns, r).value.1 == 1 <==> a > 15.0)
              && (LabelRow(columns, r).value.1 == 0 <==> a <= 15.0)
  {
  }

  /** 15 minutes late is on time; 16 minutes late is delayed. */
  lemma LabelBoundary()
    ensures IsDelayed(15.0) == 0 && IsDelayed(16.0) == 1
  {
  }

  /**
   * Every training example comes from an input row whose arrival delay is a
   * number: its features are that row's prepared features and its label says
   * whether that delay exceeds 15 minutes.
   */
  lemma TrainingRowsFromInput(df: Frame, frac: real, pick: seq<nat>)
    requires forall k :: 0 <= k < |pick| ==> pick[k] < |LabelledRows(df)|
    ensures |TrainingTable(df, frac, pick).0.rows| == |TrainingTable(df, frac, pick).1|
    ensures forall k :: 0 <= k < |TrainingTable(df, frac, pick).1| ==> FromInputRow(df, TrainingTable(df, frac, pick), k)
  {
    var outcomes := seq(|df.rows|, i requires 0 <= i < |df.rows| => LabelRow(df.columns, df.rows[i]));
    var labelled := LabelledRows(df);
    var at := PresentAt(outcomes);
    var s := Sampled(labelled, frac, pick);
    var table := TrainingTable(df, frac, pick);
    forall k | 0 <= k < |table.1|
      ensures FromInputRow(df, table, k)
    {
      var m := if 0.0 < frac < 1.0 then pick[k] else k;
      assert s[k] == labelled[m];
      var i := at[m];
      assert outcomes[i] == LabelRow(df.columns, df.rows[i]);
      LabelRowSpec(df.columns, df.rows[i]);
      assert LabelledFrom(df, i, table, k);
    }
  }

  /** Training example `k` of `table` comes from some input row. */
  ghost predicate FromInputRow(df: Frame, table: (Frame, seq<int>), k: nat)
    requires k < |table.0.rows| && k < |table.1|
  {
    exists i :: 0 <= i < |df.rows| && LabelledFrom(df, i, table, k)
  }

  /** Training example `k` of `table` is input row `i`: its arrival delay is a number, its features are the row's, its label the row's. */
  ghost predicate LabelledFrom(df: Frame, i: nat, table: (Frame, seq<int>), k: nat)
    requires i < |df.rows| && k < |table.0.rows| && k < |table.1|
  {
    var a := NumberOf(ToNumeric(Get(df.rows[i], "arr_delay")));
    && a.Some?
    && table.0.rows[k] == FeatureRow(PrepareRow(df.columns, df.rows[i]))
    && table.1[k] == IsDelayed(a.value)
  }

  /**
   * After filling no feature is missing: a present value is kept, a missing
   * categorical becomes "UNK" and a missing number -1.
   */
  lemma FeatureRowFilled(p: Row)
    ensures forall c :: c in FeatureColumns ==> c in FeatureRow(p) && !FeatureRow(p)[c].Null?
    ensures forall c :: c in FeatureColumns && !Get(p, c).Null? ==> FeatureRow(p)[c] == Get(p, c)
    ensures forall c :: c in Categorical && Get(p, c).Null? ==> FeatureRow(p)[c] == Text("UNK")
    ensures forall c :: c in Numeric && Get(p, c).Null? ==> FeatureRow(p)[c] == Num(-1.0)
  {
    assert forall c :: c in Numeric ==> c !in Categorical;
  }

  /**
   * The month and weekday features of a row with a real date are 1..12 and
   * 0..6 (Monday = 0); a date that does not parse gives -1 for both.
   */
  lemma CalendarFeatures(columns: seq<string>, r: Row)
    ensures var x := FeatureRow(PrepareRow(columns, r));
            var date := ToDatetime(Get(r, "flight_date"));
            && (date.Day? ==> Get(x, "month") == Int(date.d.month) && 1 <= date.d.month <= 12
                              && Get(x, "dayofweek") == Int(Weekday(date.d)) && 0 <= Weekday(date.d) <= 6)
            && (date.Null? ==> Get(x, "month") == Num(-1.0) && Get(x, "dayofweek") == Num(-1.0))
  {
    var p := PrepareRow(columns, r);
    assert p["month"] == MonthCell(ToDatetime(Get(r, "flight_date")));
    assert p["dayofweek"] == WeekdayCell(ToDatetime(Get(r, "flight_date")));
    FeatureRowFilled(p);
  }

  /**
   * The hour feature: an existing `crs_dep_hour` is kept, else it is the hour
   * of `CRSDepTime`, else it is missing; whatever is missing becomes "UNK".
   */
  lemma HourFeature(columns: seq<string>, r: Row)
    ensures var x := FeatureRow(PrepareRow(columns, r));
            && ("crs_dep_hour" in columns ==> Get(x, "crs_dep_hour") == FillNa(Get(r, "crs_dep_hour"), Text("UNK")))
            && ("crs_dep_hour" !in columns && "CRSDepTime" in columns ==>
                  Get(x, "crs_dep_hour") == FillNa(ExtractHour(Get(r, "CRSDepTime")), Text("UNK")))
            && ("crs_dep_hour" !in columns && "CRSDepTime" !in columns ==> Get(x, "crs_dep_hour") == Text("UNK"))
  {
    var p := PrepareRow(columns, r);
    assert p["crs_dep_hour"] == HourCell(columns, r);
    FeatureRowFilled(p);
  }

  /**
   * Airline, origin and destination go through `astype(str)` before the fill,
   * so they are never missing and never filled with "UNK" (a missing one reads
   * "nan").
   */
  lemma IdentifierFeatures(columns: seq<string>, r: Row)
    ensures var x := FeatureRow(PrepareRow(columns, r));
            && Get(x, "airline") == Text(AsStr(Get(r, "airline")))
            && Get(x, "origin") == Text(AsStr(Get(r, "origin")))
            && Get(x, "destination") == Text(AsStr(Get(r, "destination")))
  {
    var p := PrepareRow(columns, r);
    assert p["airline"] == Text(AsStr(Get(r, "airline")));
    assert p["origin"] == Text(AsStr(Get(r, "origin")));
    assert p["destination"] == Text(AsStr(Get(r, "destination")));
    FeatureRowFilled(p);
  }

  /** The numeric delay and distance features are the coerced inputs, -1 where missing or unparsable. */
  lemma NumberFeatures(columns: seq<string>, r: Row)
    ensures var x := FeatureRow(PrepareRow(columns, r));
            && Get(x, "distance") == FillNa(ToNumeric(Get(r, "distance")), Num(-1.0))
            && Get(x, "dep_delay") == FillNa(ToNumeric(Get(r, "dep_delay")), Num(-1.0))
            && Get(x, "taxi_out") == FillNa(ToNumeric(Get(r, "taxi_out")), Num(-1.0))
  {
    var p := PrepareRow(columns, r);
    assert p["distance"] == ToNumeric(Get(r, "distance"));
    assert p["dep_delay"] == ToNumeric(Get(r, "dep_delay"));
    assert p["taxi_out"] == ToNumeric(Get(r, "taxi_out"));
    FeatureRowFilled(p);
  }

  /** Outside `0 < frac < 1` every labelled row is kept, in order. */
  lemma NoSamplingOutsideUnitInterval<T>(rows: seq<T>, frac: real, pick: seq<nat>)
    requires forall k :: 0 <= k < |pick| ==> pick[k] < |rows|
    requires frac <= 0.0 || frac >= 1.0
    ensures Sampled(rows, frac, pick) == rows
  {
  }
}
