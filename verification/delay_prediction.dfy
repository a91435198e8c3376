/**
 * app_pages/3_delay_prediction.py: the one-row frame handed to the trained
 * delay pipeline, the rule-based "Why this prediction?" reasons and the
 * "Key Risk Contributors" table. The pipeline itself is not modelled: its
 * predicted label is an input.
 */
module DelayPrediction {
  import opened Wrappers
  import opened Numbers
  import opened Frames
  import opened MlUtils
  import opened Rules

  /** The page's widgets: three codes and six whole numbers. */
  datatype DelayInputs = DelayInputs(
    airline: string, origin: string, destination: string,
    distance: int, depDelay: int, taxiOut: int,
    crsDepHour: int, month: int, dayofweek: int)

  /** The column list the page selects, in the order it writes it. */
  const InferenceColumns: seq<string> :=
    ["airline", "origin", "destination", "crs_dep_hour",
     "distance", "dep_delay", "taxi_out", "month", "dayofweek"]

  /** Lines 92-101: the one row of the inference frame. */
  function InferenceRow(inp: DelayInputs): Row {
    map[
      "airline" := Text(inp.airline),
      "origin" := Text(inp.origin),
      "destination" := Text(inp.destination),
      "crs_dep_hour" := Text(IntText(inp.crsDepHour)),
      "distance" := Num(inp.distance as real),
      "dep_delay" := Num(inp.depDelay as real),
      "taxi_out" := Num(inp.taxiOut as real),
      "month" := Int(inp.month),
      "dayofweek" := Int(inp.dayofweek)]
  }

  /**
   * Lines 92-107: the inference frame, one row under the column list the
   * page writes out, which is the training schema `CATEGORICAL + NUMERIC`
   * in the same order.
   */
  function InferenceFrame(inp: DelayInputs): (x: Frame)
    ensures x.columns == FeatureColumns
    ensures |x.rows| == 1 && x.rows[0].Keys == set c | c in FeatureColumns
  {
    Frame(InferenceColumns, [InferenceRow(inp)])
  }

  /** The hour goes in as the text `str(hour)`, which reads back as the hour. */
  lemma InferenceHour(inp: DelayInputs)
    ensures Get(InferenceFrame(inp).rows[0], "crs_dep_hour").Text?
    ensures ParseNumber(Get(InferenceFrame(inp).rows[0], "crs_dep_hour").s) == Some(inp.crsDepHour as real)
  {
    IntTextRoundTrip(inp.crsDepHour);
  }

  /** Distance, departure delay and taxi-out go in as floats, month and weekday as ints. */
  lemma InferenceNumbers(inp: DelayInputs)
    ensures Get(InferenceFrame(inp).rows[0], "distance") == Num(inp.distance as real)
    ensures Get(InferenceFrame(inp).rows[0], "dep_delay") == Num(inp.depDelay as real)
    ensures Get(InferenceFrame(inp).rows[0], "taxi_out") == Num(inp.taxiOut as real)
    ensures Get(InferenceFrame(inp).rows[0], "month") == Int(inp.month)
    ensures Get(InferenceFrame(inp).rows[0], "dayofweek") == Int(inp.dayofweek)
  {
  }

  /**
   * Only the names and order agree with training: when the raw frame has no
   * `crs_dep_hour` column, the hour the training code puts there (derived from
   * `CRSDepTime`, or missing) becomes an int or the fill text "UNK", never the
   * text of a number that the page sends. A `crs_dep_hour` column already in
   * the raw frame is passed through as it is and is not covered here.
   */
  lemma HourTypeDiffersFromTraining(columns: seq<string>, r: Row, inp: DelayInputs)
    requires "crs_dep_hour" !in columns
    ensures FeatureValue("crs_dep_hour", HourCell(columns, r)) != Get(InferenceFrame(inp).rows[0], "crs_dep_hour")
  {
    var c := if "CRSDepTime" in columns then Get(r, "CRSDepTime") else Null;
    assert HourCell(columns, r) == ExtractHour(c);
    InferenceHour(inp);
    var s := IntText(inp.crsDepHour);
    if ExtractHour(c).Null? {
      assert s[0] != 'U' by {
        if inp.crsDepHour >= 0 {
          assert s == NatText(inp.crsDepHour);
          assert IsDigit(s[0]);
        }
      }
      assert "UNK"[0] == 'U';
    }
  }

  /** Line 145: the label shown for the pipeline's prediction. */
  function PredictionLabel(pred: int): (s: string)
    ensures s == "Delayed" <==> pred == 1
    ensures s != "Delayed" ==> s == "On-time"
  {
    if pred == 1 then "Delayed" else "On-time"
  }

  // ---------------------------------------------------------------
  // Explanations
  // ---------------------------------------------------------------

  /** The peak departure hours the page checks. */
  const PeakHours: seq<int> := [7, 8, 9, 17, 18, 19]

  /** Whether any of the four delay indicators holds. */
  predicate AnyDelayIndicator(inp: DelayInputs) {
    inp.depDelay > 15 || inp.crsDepHour in PeakHours || inp.taxiOut > 20 || inp.distance > 3000
  }

  datatype DelayReason = HighDepartureDelay | PeakHourDeparture | LongTaxiOut | LongHaulFlight | LowRiskConditions

  /** The position a reason takes in the list. */
  function ReasonRank(r: DelayReason): int {
    match r
    case HighDepartureDelay => 0
    case PeakHourDeparture => 1
    case LongTaxiOut => 2
    case LongHaulFlight => 3
    case LowRiskConditions => 4
  }

  /** Lines 158-182: the four rules in the order the page tests them. */
  function ReasonRules(inp: DelayInputs): seq<(DelayReason, bool)> {
    [(HighDepartureDelay, inp.depDelay > 15),
     (PeakHourDeparture, inp.crsDepHour in PeakHours),
     (LongTaxiOut, inp.taxiOut > 20),
     (LongHaulFlight, inp.distance > 3000)]
  }

  /** The reasons shown: those of the rules that fire, or the low-risk reason alone when none does. */
  function ExplainedReasons(inp: DelayInputs): seq<DelayReason> {
    var fired := Fired(ReasonRules(inp));
    if |fired| == 0 then [LowRiskConditions] else fired
  }

  /** Lines 158-188: the reasons list, appended rule by rule. */
  method DelayReasons(inp: DelayInputs) returns (reasons: seq<DelayReason>)
    ensures reasons == ExplainedReasons(inp)
  {
    ghost var rules := ReasonRules(inp);
    reasons := [];
    if inp.depDelay > 15 {
      reasons := reasons + [HighDepartureDelay];
    }
    assert reasons == FiredUpTo(rules, 1);
    if inp.crsDepHour in PeakHours {
      reasons := reasons + [PeakHourDeparture];
    }
    assert reasons == FiredUpTo(rules, 2);
    if inp.taxiOut > 20 {
      reasons := reasons + [LongTaxiOut];
    }
    assert reasons == FiredUpTo(rules, 3);
    if inp.distance > 3000 {
      reasons := reasons + [LongHaulFlight];
    }
    assert reasons == FiredUpTo(rules, 4);
    if |reasons| == 0 {
      reasons := reasons + [LowRiskConditions];
    }
  }

  /**
   * Each indicator's reason is shown iff it holds, in the order departure
   * delay, peak hour, taxi-out, distance; the low-risk reason is shown iff
   * none holds, and then alone. The list is never empty.
   */
  lemma ExplainedReasonsSpec(inp: DelayInputs)
    ensures var r := ExplainedReasons(inp);
            && (HighDepartureDelay in r <==> inp.depDelay > 15)
            && (PeakHourDeparture in r <==> inp.crsDepHour in PeakHours)
            && (LongTaxiOut in r <==> inp.taxiOut > 20)
            && (LongHaulFlight in r <==> inp.distance > 3000)
            && (LowRiskConditions in r <==> !AnyDelayIndicator(inp))
            && (LowRiskConditions in r ==> r == [LowRiskConditions])
            && 1 <= |r| <= 4
            && RankedBy(r, ReasonRank)
  {
    var rules := ReasonRules(inp);
    ReasonRulesRanked(inp);
    FiredKeepsOrder(rules, ReasonRank);
    FiredHas(rules, 0, ReasonRank);
    FiredHas(rules, 1, ReasonRank);
    FiredHas(rules, 2, ReasonRank);
    FiredHas(rules, 3, ReasonRank);
    FiredNone(rules);
    assert LowRiskConditions !in Fired(rules);
  }

  lemma ReasonRulesRanked(inp: DelayInputs)
    ensures TableRankedBy(ReasonRules(inp), ReasonRank)
  {
    var rules := ReasonRules(inp);
    assert forall i :: 0 <= i < |rules| ==> ReasonRank(rules[i].0) == i;
    assert forall i, j :: 0 <= i < j < |rules| ==> ReasonRank(rules[i].0) < ReasonRank(rules[j].0);
  }

  datatype RiskKind = DepartureDelayFactor | TaxiOutFactor | PeakHourFactor | LongDistanceFactor

  /** The "Factor" cell of a row of the contributors table. */
  function FactorName(k: RiskKind): string {
    match k
    case DepartureDelayFactor => "Departure Delay"
    case TaxiOutFactor => "Taxi-out Time"
    case PeakHourFactor => "Peak Hour"
    case LongDistanceFactor => "Long Distance"
  }

  function FactorRank(k: RiskKind): nat {
    match k
    case DepartureDelayFactor => 0
    case TaxiOutFactor => 1
    case PeakHourFactor => 2
    case LongDistanceFactor => 3
  }

  /** The input a factor reports as its "Value". */
  function FactorInput(k: RiskKind, inp: DelayInputs): int {
    match k
    case DepartureDelayFactor => inp.depDelay
    case TaxiOutFactor => inp.taxiOut
    case PeakHourFactor => inp.crsDepHour
    case LongDistanceFactor => inp.distance
  }

  datatype RiskFactor = RiskFactor(kind: RiskKind, value: int)

  /** The rank of a table row, by its factor. */
  function FactorRowRank(f: RiskFactor): int {
    FactorRank(f.kind)
  }

  /** Lines 219-231: the contributor rules in the order the page tests them, each carrying its input value. */
  function FactorRules(inp: DelayInputs): seq<(RiskFactor, bool)> {
    [(RiskFactor(DepartureDelayFactor, inp.depDelay), inp.depDelay > 15),
     (RiskFactor(TaxiOutFactor, inp.taxiOut), inp.taxiOut > 20),
     (RiskFactor(PeakHourFactor, inp.crsDepHour), inp.crsDepHour in PeakHours),
     (RiskFactor(LongDistanceFactor, inp.distance), inp.distance > 3000)]
  }

  /** Lines 219-238: the contributors table, appended rule by rule. */
  method KeyRiskContributors(inp: DelayInputs) returns (factors: seq<RiskFactor>)
    ensures factors == Fired(FactorRules(inp))
  {
    ghost var rules := FactorRules(inp);
    factors := [];
    if inp.depDelay > 15 {
      factors := factors + [RiskFactor(DepartureDelayFactor, inp.depDelay)];
    }
    assert factors == FiredUpTo(rules, 1);
    if inp.taxiOut > 20 {
      factors := factors + [RiskFactor(TaxiOutFactor, inp.taxiOut)];
    }
    assert factors == FiredUpTo(rules, 2);
    if inp.crsDepHour in PeakHours {
      factors := factors + [RiskFactor(PeakHourFactor, inp.crsDepHour)];
    }
    assert factors == FiredUpTo(rules, 3);
    if inp.distance > 3000 {
      factors := factors + [RiskFactor(LongDistanceFactor, inp.distance)];
    }
  }

  /**
   * The contributors table holds the same four indicators, in the order
   * departure delay, taxi-out, peak hour, distance, each with its own input
   * value. It is empty, and the "conditions appear normal" message shown,
   * exactly when the explanation is the low-risk one.
   */
  lemma KeyRiskContributorsSpec(inp: DelayInputs)
    ensures var f := Fired(FactorRules(inp));
            && (RiskFactor(DepartureDelayFactor, inp.depDelay) in f <==> inp.depDelay > 15)
            && (RiskFactor(TaxiOutFactor, inp.taxiOut) in f <==> inp.taxiOut > 20)
            && (RiskFactor(PeakHourFactor, inp.crsDepHour) in f <==> inp.crsDepHour in PeakHours)
            && (RiskFactor(LongDistanceFactor, inp.distance) in f <==> inp.distance > 3000)
            && (forall i :: 0 <= i < |f| ==> f[i].value == FactorInput(f[i].kind, inp))
            && RankedBy(f, FactorRowRank)
            && (|f| == 0 <==> ExplainedReasons(inp) == [LowRiskConditions])
  {
    var rules := FactorRules(inp);
    FactorRulesRanked(inp);
    FiredKeepsOrder(rules, FactorRowRank);
    FiredHas(rules, 0, FactorRowRank);
    FiredHas(rules, 1, FactorRowRank);
    FiredHas(rules, 2, FactorRowRank);
    FiredHas(rules, 3, FactorRowRank);
    FiredNone(rules);
    ExplainedReasonsSpec(inp);
    assert |Fired(rules)| == 0 <==> !AnyDelayIndicator(inp) by {
      assert !rules[0].1 && !rules[1].1 && !rules[2].1 && !rules[3].1 <==> !AnyDelayIndicator(inp);
    }
    var f := Fired(rules);
    forall i | 0 <= i < |f|
      ensures f[i].value == FactorInput(f[i].kind, inp)
    {
      assert f[i] in f;
    }
  }

  lemma FactorRulesRanked(inp: DelayInputs)
    ensures TableRankedBy(FactorRules(inp), FactorRowRank)
  {
    var rules := FactorRules(inp);
    assert forall i :: 0 <= i < |rules| ==> FactorRowRank(rules[i].0) == i;
    assert forall i, j :: 0 <= i < j < |rules| ==> FactorRowRank(rules[i].0) < FactorRowRank(rules[j].0);
  }
}
