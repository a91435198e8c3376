/**
 * app_pages/8_airport_weather_delay_insights.py: the delay risk score and its
 * reasons, computed from the live weather record of an airport, and the
 * Low/Moderate/High category shown for the score. Fetching the record is not
 * modelled: the record is an input, a map from field names to numbers.
 */
module WeatherInsights {
  import opened Rules

  /** `weather.get(key, default)`. */
  function Lookup(weather: map<string, real>, key: string, default: real): real {
    if key in weather then weather[key] else default
  }

  datatype WeatherReason = HeavyPrecipitation | StrongWind | LowVisibility

  /** What a reason adds to the score. */
  function Weight(r: WeatherReason): int {
    match r
    case HeavyPrecipitation => 2
    case StrongWind => 2
    case LowVisibility => 1
  }

  function WeatherRank(r: WeatherReason): int {
    match r
    case HeavyPrecipitation => 0
    case StrongWind => 1
    case LowVisibility => 2
  }

  /** The weights of a list of reasons, added up in list order. */
  function TotalWeight(rs: seq<WeatherReason>): int {
    if |rs| == 0 then 0 else TotalWeight(rs[..|rs| - 1]) + Weight(rs[|rs| - 1])
  }

  /**
   * Lines 40-50: the three weather rules in the order the page tests them; a
   * missing precipitation or wind speed reads 0 and a missing visibility 10.
   */
  function WeatherRules(weather: map<string, real>): seq<(WeatherReason, bool)> {
    [(HeavyPrecipitation, Lookup(weather, "precip", 0.0) > 2.0),
     (StrongWind, Lookup(weather, "wind_speed", 0.0) > 40.0),
     (LowVisibility, Lookup(weather, "visibility", 10.0) < 5.0)]
  }

  /** Appending a reason adds its weight. */
  lemma TotalWeightAppend(rs: seq<WeatherReason>, r: WeatherReason)
    ensures TotalWeight(rs + [r]) == TotalWeight(rs) + Weight(r)
  {
    assert (rs + [r])[..|rs|] == rs;
  }

  /** Lines 37-50: the score accumulator and the reasons list, updated rule by rule. */
  method RiskScore(weather: map<string, real>) returns (score: int, reasons: seq<WeatherReason>)
    ensures reasons == Fired(WeatherRules(weather))
    ensures score == TotalWeight(reasons)
  {
    ghost var rules := WeatherRules(weather);
    score := 0;
    reasons := [];
    if Lookup(weather, "precip", 0.0) > 2.0 {
      TotalWeightAppend(reasons, HeavyPrecipitation);
      score := score + 2;
      reasons := reasons + [HeavyPrecipitation];
    }
    assert reasons == FiredUpTo(rules, 1);
    if Lookup(weather, "wind_speed", 0.0) > 40.0 {
      TotalWeightAppend(reasons, StrongWind);
      score := score + 2;
      reasons := reasons + [StrongWind];
    }
    assert reasons == FiredUpTo(rules, 2);
    if Lookup(weather, "visibility", 10.0) < 5.0 {
      TotalWeightAppend(reasons, LowVisibility);
      score := score + 1;
      reasons := reasons + [LowVisibility];
    }
    assert reasons == FiredUpTo(rules, 3);
  }

  datatype RiskLevel = Low | Moderate | High

  /** Lines 52-57: the category shown for a score. */
  function Category(score: int): RiskLevel {
    if score == 0 then Low
    else if score <= 2 then Moderate
    else High
  }

  /** The reasons that fire, spelled out per combination of conditions. */
  lemma FiredWeather(weather: map<string, real>)
    ensures var rules := WeatherRules(weather);
            Fired(rules) == (if rules[0].1 then [HeavyPrecipitation] else [])
                            + (if rules[1].1 then [StrongWind] else [])
                            + (if rules[2].1 then [LowVisibility] else [])
  {
    var rules := WeatherRules(weather);
    var a: seq<WeatherReason> := if rules[0].1 then [HeavyPrecipitation] else [];
    var b: seq<WeatherReason> := if rules[1].1 then [StrongWind] else [];
    var c: seq<WeatherReason> := if rules[2].1 then [LowVisibility] else [];
    assert FiredUpTo(rules, 1) == a;
    assert FiredUpTo(rules, 2) == a + b;
    assert FiredUpTo(rules, 3) == a + b + c;
  }

  /** The score and the number of reasons, per combination of conditions. */
  lemma WeightOfFired(weather: map<string, real>)
    ensures var rules := WeatherRules(weather);
            && TotalWeight(Fired(rules)) == (if rules[0].1 then 2 else 0) + (if rules[1].1 then 2 else 0) + (if rules[2].1 then 1 else 0)
            && |Fired(rules)| == (if rules[0].1 then 1 else 0) + (if rules[1].1 then 1 else 0) + (if rules[2].1 then 1 else 0)
  {
    var rules := WeatherRules(weather);
    FiredWeather(weather);
    var a: seq<WeatherReason> := if rules[0].1 then [HeavyPrecipitation] else [];
    var b: seq<WeatherReason> := if rules[1].1 then [StrongWind] else [];
    if rules[0].1 {
      TotalWeightAppend([], HeavyPrecipitation);
    }
    if rules[1].1 {
      TotalWeightAppend(a, StrongWind);
    }
    if rules[2].1 {
      TotalWeightAppend(a + b, LowVisibility);
    }
  }

  /**
   * Each reason is given iff its condition holds, in the order precipitation,
   * wind, visibility.
   */
  lemma RiskReasonsSpec(weather: map<string, real>)
    ensures var rs := Fired(WeatherRules(weather));
            && (HeavyPrecipitation in rs <==> Lookup(weather, "precip", 0.0) > 2.0)
            && (StrongWind in rs <==> Lookup(weather, "wind_speed", 0.0) > 40.0)
            && (LowVisibility in rs <==> Lookup(weather, "visibility", 10.0) < 5.0)
            && RankedBy(rs, WeatherRank)
  {
    var rules := WeatherRules(weather);
    assert TableRankedBy(rules, WeatherRank) by {
      assert forall i :: 0 <= i < |rules| ==> WeatherRank(rules[i].0) == i;
    }
    FiredKeepsOrder(rules, WeatherRank);
    FiredHas(rules, 0, WeatherRank);
    FiredHas(rules, 1, WeatherRank);
    FiredHas(rules, 2, WeatherRank);
  }

  /**
   * The score is 2 for precipitation, 2 for wind and 1 for visibility, so it
   * lies in 0..5; the category is Low with no reason, Moderate with exactly
   * one and High with two or more.
   */
  lemma RiskScoreSpec(weather: map<string, real>)
    ensures var rs := Fired(WeatherRules(weather));
            && 0 <= TotalWeight(rs) <= 5
            && (Category(TotalWeight(rs)) == Low <==> |rs| == 0)
            && (Category(TotalWeight(rs)) == Moderate <==> |rs| == 1)
            && (Category(TotalWeight(rs)) == High <==> |rs| >= 2)
  {
    WeightOfFired(weather);
  }

  /** A record with none of the three fields gives no reason, a zero score and the Low category. */
  lemma EmptyRecordIsLowRisk()
    ensures Fired(WeatherRules(map[])) == []
    ensures TotalWeight(Fired(WeatherRules(map[]))) == 0 && Category(0) == Low
  {
    FiredWeather(map[]);
  }
}
