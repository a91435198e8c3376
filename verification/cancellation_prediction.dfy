/**
 * app_pages/7_cancellation_prediction.py: the feature vector handed to the
 * cancellation classifier, the High/Low Risk result box and the "Model Logic"
 * reasons. The classifier is not modelled: its label and probability are
 * inputs. Each label encoder is its list of known classes, and `transform`
 * gives a value's position in that list.
 */
module CancellationPrediction {
  import opened Wrappers

  /** The page's widgets. */
  datatype CancelInputs = CancelInputs(
    airline: string, origin: string, dest: string,
    depDelay: int, distance: int, month: int, dow: int)

  /** The fitted encoders' `classes_` for the three categorical columns. */
  datatype Encoders = Encoders(airline: seq<string>, origin: seq<string>, dest: seq<string>)

  /** scripts/train_cancel_model.py, lines 19-24: the columns the model is trained on, target last. */
  const TrainingSelection: seq<string> :=
    ["Airline", "Origin", "Dest", "DepDelayMinutes", "Distance", "Month", "DayOfWeek", "Cancelled"]

  /** `df.drop(c, axis=1)` on a column list. */
  function Without(columns: seq<string>, c: string): (r: seq<string>)
    ensures forall x :: x in r <==> x in columns && x != c
    ensures |r| <= |columns|
  {
    if |columns| == 0 then []
    else if columns[0] == c then Without(columns[1..], c)
    else [columns[0]] + Without(columns[1..], c)
  }

  /** The meaning of each slot of the page's feature vector, in the order it builds it. */
  const VectorLayout: seq<string> :=
    ["Airline", "Origin", "Dest", "DepDelayMinutes", "Distance", "Month", "DayOfWeek"]

  /** The vector's slots are the training features `X`, in the training order. */
  lemma {:induction false} VectorMatchesTraining()
    ensures VectorLayout == Without(TrainingSelection, "Cancelled")
  {
    var t := TrainingSelection;
    assert t[1..][1..][1..][1..][1..][1..][1..] == ["Cancelled"];
    assert Without(["Cancelled"], "Cancelled") == [] by {
      assert ["Cancelled"][1..] == [];
    }
  }

  /** `LabelEncoder.transform` for one value: its position among the classes, or an error for an unseen label. */
  function Transform(classes: seq<string>, v: string): (r: Option<nat>)
    ensures r.Some? ==> r.value < |classes| && classes[r.value] == v
    ensures r.None? <==> v !in classes
  {
    if |classes| == 0 then None
    else if classes[0] == v then Some(0)
    else match Transform(classes[1..], v)
      case Some(k) => Some(k + 1)
      case None => None
  }

  datatype PredictionError = UnseenLabel(column: string)

  /**
   * Lines 112-117: the three codes are encoded, airline first, and the vector
   * is the three positions followed by delay, distance, month and weekday. An
   * unseen label raises, and the page reports the error.
   */
  function FeatureVector(enc: Encoders, inp: CancelInputs): (r: Result<seq<int>, PredictionError>)
    ensures r.Success? <==> inp.airline in enc.airline && inp.origin in enc.origin && inp.dest in enc.dest
    ensures r.Failure? ==> r.error.column == (if inp.airline !in enc.airline then "Airline"
                                              else if inp.origin !in enc.origin then "Origin" else "Dest")
    ensures r.Success? ==> |r.value| == |VectorLayout| && r.value[3..] == [inp.depDelay, inp.distance, inp.month, inp.dow]
    ensures r.Success? ==> && 0 <= r.value[0] < |enc.airline| && enc.airline[r.value[0]] == inp.airline
                           && 0 <= r.value[1] < |enc.origin| && enc.origin[r.value[1]] == inp.origin
                           && 0 <= r.value[2] < |enc.dest| && enc.dest[r.value[2]] == inp.dest
  {
    match Transform(enc.airline, inp.airline)
    case None => Failure(UnseenLabel("Airline"))
    case Some(a) =>
      match Transform(enc.origin, inp.origin)
      case None => Failure(UnseenLabel("Origin"))
      case Some(o) =>
        match Transform(enc.dest, inp.dest)
        case None => Failure(UnseenLabel("Dest"))
        case Some(d) => Success([a, o, d, inp.depDelay, inp.distance, inp.month, inp.dow])
  }

  /** Reading a vector back through the encoders' classes. */
  function DecodeVector(enc: Encoders, x: seq<int>): CancelInputs
    requires |x| == |VectorLayout|
    requires 0 <= x[0] < |enc.airline| && 0 <= x[1] < |enc.origin| && 0 <= x[2] < |enc.dest|
  {
    CancelInputs(enc.airline[x[0]], enc.origin[x[1]], enc.dest[x[2]], x[3], x[4], x[5], x[6])
  }

  /**
   * The vector loses nothing: the widgets only offer known classes, so the
   * encoding succeeds, and decoding it gives back exactly the inputs.
   */
  lemma VectorRoundTrip(enc: Encoders, inp: CancelInputs)
    requires inp.airline in enc.airline && inp.origin in enc.origin && inp.dest in enc.dest
    ensures FeatureVector(enc, inp).Success?
    ensures DecodeVector(enc, FeatureVector(enc, inp).value) == inp
  {
    var x := FeatureVector(enc, inp).value;
    assert x[3..][0] == x[3] && x[3..][1] == x[4] && x[3..][2] == x[5] && x[3..][3] == x[6];
  }

  // ---------------------------------------------------------------
  // Result box
  // ---------------------------------------------------------------

  const Red := "#ef4444"
  const Green := "#10b981"
  const HighRiskText := "High Risk: Flight Likely Cancelled"
  const LowRiskText := "Low Risk: Flight Likely On Time"

  datatype ResultStyle = ResultStyle(color: string, background: string, status: string, icon: string)

  /** Lines 126-138: the red High Risk box iff the label is 1, the green Low Risk box otherwise. */
  function StyleFor(pred: int): (s: ResultStyle)
    ensures s.status == HighRiskText <==> pred == 1
    ensures s.color == Red <==> pred == 1
    ensures pred != 1 ==> s.color == Green && s.status == LowRiskText
  {
    if pred == 1 then ResultStyle(Red, "rgba(239, 68, 68, 0.1)", HighRiskText, "\U{274C}")
    else ResultStyle(Green, "rgba(16, 185, 129, 0.1)", LowRiskText, "\U{2705}")
  }

  // ---------------------------------------------------------------
  // Reasons
  // ---------------------------------------------------------------

  datatype CancelReason =
    | SevereDelay(minutes: int)
    | ModerateDelay(minutes: int)
    | ShortHaul
    | HighConfidence
    | NormalParameters
    | ComplexFactors

  /** Whether one of the three rules fires. */
  predicate AnyCancelRule(depDelay: int, distance: int, prob: real) {
    depDelay >= 30 || distance < 300 || prob > 0.8
  }

  /**
   * Lines 166-183: the severe-delay reason iff the delay is at least 60
   * minutes, the moderate one iff it is 30 to 59, never both, each quoting
   * the delay; the short-haul reason iff the distance is under 300; the
   * confidence reason iff the probability exceeds 0.8. Exactly one fallback,
   * worded by the label, iff no rule fired. One to three reasons: the delay
   * reason first and the confidence reason last.
   */
  method CancellationReasons(depDelay: int, distance: int, prob: real, pred: int) returns (reasons: seq<CancelReason>)
    ensures SevereDelay(depDelay) in reasons <==> depDelay >= 60
    ensures ModerateDelay(depDelay) in reasons <==> 30 <= depDelay < 60
    ensures !(SevereDelay(depDelay) in reasons && ModerateDelay(depDelay) in reasons)
    ensures forall i :: 0 <= i < |reasons| && (reasons[i].SevereDelay? || reasons[i].ModerateDelay?) ==>
              reasons[i].minutes == depDelay
    ensures ShortHaul in reasons <==> distance < 300
    ensures HighConfidence in reasons <==> prob > 0.8
    ensures NormalParameters in reasons <==> !AnyCancelRule(depDelay, distance, prob) && pred != 1
    ensures ComplexFactors in reasons <==> !AnyCancelRule(depDelay, distance, prob) && pred == 1
    ensures NormalParameters in reasons || ComplexFactors in reasons ==> |reasons| == 1
    ensures 1 <= |reasons| <= 3
    ensures depDelay >= 30 ==> reasons[0] == (if depDelay >= 60 then SevereDelay(depDelay) else ModerateDelay(depDelay))
    ensures prob > 0.8 ==> reasons[|reasons| - 1] == HighConfidence
  {
    var isCancelled := pred == 1;
    reasons := [];
    if depDelay >= 60 {
      reasons := reasons + [SevereDelay(depDelay)];
    } else if depDelay >= 30 {
      reasons := reasons + [ModerateDelay(depDelay)];
    }
    if distance < 300 {
      reasons := reasons + [ShortHaul];
    }
    if prob > 0.8 {
      reasons := reasons + [HighConfidence];
    }
    if |reasons| == 0 && !isCancelled {
      reasons := reasons + [NormalParameters];
    } else if |reasons| == 0 && isCancelled {
      reasons := reasons + [ComplexFactors];
    }
  }
}
