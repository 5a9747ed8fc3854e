/** The POST branch of the telemetry endpoint: evaluate one parsed sample
    against the stored rows and build the record that is then stored. */
module TelemetryPost {
  import opened Readings
  import opened RuleEngine
  import opened OutlierGate
  import opened HealthScore
  import opened SeverityLevels
  import opened ReasonText

  /** The row handed to the store for one sample (timestamp and id are the store's). */
  datatype TelemetryRecord = TelemetryRecord(
    speed: real,
    fuelLevel: real,
    temperature: real,
    latitude: real,
    longitude: real,
    ruleAnomaly: bool,
    mlAnomaly: bool,
    anomalyReason: string,
    healthScore: int,
    severity: string)

  /** All reasons of one evaluation: the rule reasons, then the model's reason if it fired. */
  function Reasons(f: Features, ml: bool): seq<string> {
    RuleReasons(f) + (if ml then [MlReason] else [])
  }

  /** Evaluates one sample. `existing` is the (speed, fuel level, temperature)
      of every stored row, read before the new row is stored; `model` stands
      for fitting the isolation forest on them and predicting the new point. */
  method Evaluate(sample: Sample, existing: seq<Features>, model: OutlierModel)
    returns (row: TelemetryRecord)
    ensures row.speed == sample.speed && row.fuelLevel == sample.fuel
    ensures row.temperature == sample.temperature
    ensures row.latitude == sample.latitude && row.longitude == sample.longitude
    ensures row.ruleAnomaly <==> RuleAnomaly(Project(sample))
    ensures row.mlAnomaly <==> MlAnomaly(existing, Project(sample), model)
    ensures row.anomalyReason == Join(Reasons(Project(sample), row.mlAnomaly))
    ensures row.healthScore == Score(Project(sample), row.mlAnomaly)
    ensures row.severity == Classify(row.healthScore).Name()
  {
    var speed, fuel, temperature := sample.speed, sample.fuel, sample.temperature;
    ghost var f := Project(sample);
    RuleReasonsClosedForm(f);
    RuleAnomalyIffReasons(f);

    // rule-based detection
    var ruleAnomaly := false;
    var reasons: seq<string> := [];
    if speed > OverspeedLimit {
      ruleAnomaly := true;
      reasons := reasons + ["Overspeed"];
    }
    if temperature > OverheatLimit {
      ruleAnomaly := true;
      reasons := reasons + ["Overheat"];
    }
    if fuel < LowFuelLimit {
      ruleAnomaly := true;
      reasons := reasons + ["Low Fuel"];
    }

    assert reasons == RuleReasons(f) && ruleAnomaly == RuleAnomaly(f);

    // learned-pattern detection
    var mlAnomaly := false;
    if |existing| > MinHistory {
      var prediction := model(existing, Features(speed, fuel, temperature));
      if prediction == OutlierLabel {
        mlAnomaly := true;
        reasons := reasons + [MlReason];
      }
    }

    assert mlAnomaly == MlAnomaly(existing, f, model);
    assert reasons == Reasons(f, mlAnomaly);
    ScoreClosedForm(f, mlAnomaly);

    // health score
    var healthScore := FullScore;
    if speed > SpeedPenaltyLimit {
      healthScore := healthScore - 20;
    }
    if temperature > TemperaturePenaltyLimit {
      healthScore := healthScore - 25;
    }
    if fuel < FuelPenaltyLimit {
      healthScore := healthScore - 20;
    }
    if mlAnomaly {
      healthScore := healthScore - 30;
    }
    healthScore := if healthScore < 0 then 0 else healthScore;

    // severity
    var severity: string;
    if healthScore >= HealthyFloor {
      severity := "Healthy";
    } else if healthScore >= WarningFloor {
      severity := "Warning";
    } else {
      severity := "Critical";
    }

    var anomalyReason := Join(reasons);
    assert healthScore == Score(f, mlAnomaly);
    row := TelemetryRecord(speed, fuel, temperature, sample.latitude, sample.longitude,
                           ruleAnomaly, mlAnomaly, anomalyReason, healthScore, severity);
  }

  lemma MlReasonRank()
    ensures ReasonRank(MlReason) == 3
  {
  }

  /** The reasons come in the order Overspeed, Overheat, Low Fuel, ML Pattern
      Detected, none repeated; the model's reason is present exactly when the
      model fired, and then it is the last one, after every rule reason. */
  lemma ReasonsOrdered(f: Features, ml: bool)
    ensures forall i, j :: 0 <= i < j < |Reasons(f, ml)| ==>
      ReasonRank(Reasons(f, ml)[i]) < ReasonRank(Reasons(f, ml)[j])
    ensures MlReason in Reasons(f, ml) <==> ml
    ensures ml ==> Reasons(f, ml) == RuleReasons(f) + [MlReason]
    ensures !ml ==> Reasons(f, ml) == RuleReasons(f)
  {
    RuleReasonsOrdered(f);
    MlReasonRank();
    var rs := Reasons(f, ml);
    var rules := RuleReasons(f);
    forall i | 0 <= i < |rules| ensures rs[i] == rules[i] && ReasonRank(rs[i]) < 3 {
    }
    if !ml {
      assert rs == rules;
    }
    assert MlReason !in rules by {
      forall i | 0 <= i < |rules| ensures rules[i] != MlReason {
        assert ReasonRank(rules[i]) < 3;
      }
    }
  }

  /** Every reason text is clean: non-empty and without '|'. */
  lemma ReasonsClean(f: Features, ml: bool)
    ensures forall i :: 0 <= i < |Reasons(f, ml)| ==> Clean(Reasons(f, ml)[i])
  {
  }

  /** The stored reason text parses back to the reason list, so it loses nothing. */
  lemma AnomalyReasonRoundTrip(f: Features, ml: bool)
    ensures ParseReasons(Join(Reasons(f, ml))) == Reasons(f, ml)
  {
    ReasonsClean(f, ml);
    JoinParseRoundTrip(Reasons(f, ml));
  }

  /** The reason text is empty exactly when no rule fired and the model did not flag. */
  lemma AnomalyReasonEmptyIff(f: Features, ml: bool)
    ensures Join(Reasons(f, ml)) == [] <==> !RuleAnomaly(f) && !ml
  {
    AnomalyReasonRoundTrip(f, ml);
    RuleAnomalyIffReasons(f);
  }

  /** The reason text fits the 255-character `anomaly_reason` column: it holds
      at most four reasons of at most 19 characters. */
  lemma AnomalyReasonFitsColumn(f: Features, ml: bool)
    ensures |Join(Reasons(f, ml))| <= 255
  {
    RuleReasonsClosedForm(f);
    var rs := Reasons(f, ml);
    assert |rs| <= 4;
    assert forall i :: 0 <= i < |rs| ==> |rs[i]| <= 19;
    JoinLengthBound(rs, 19);
  }

  /** A Healthy verdict can carry a rule reason, but at most one, and that
      one is "Overspeed" or "Low Fuel": Healthy allows at most one 20-point
      penalty, while heat and the model cost 25 and 30. */
  lemma HealthyCarriesAtMostOneReason(f: Features, ml: bool)
    requires Classify(Score(f, ml)) == Healthy
    ensures Reasons(f, ml) == [] || Reasons(f, ml) == ["Overspeed"] || Reasons(f, ml) == ["Low Fuel"]
    ensures !ml
  {
    RuleReasonsClosedForm(f);
    ScoreClosedForm(f, ml);
  }

  /** A Critical verdict always carries a reason: "Overheat" or the model's. */
  lemma CriticalCarriesReason(f: Features, ml: bool)
    requires Classify(Score(f, ml)) == Critical
    ensures "Overheat" in Reasons(f, ml) || MlReason in Reasons(f, ml)
  {
    RuleReasonsClosedForm(f);
    ScoreClosedForm(f, ml);
    ReasonsOrdered(f, ml);
    assert f.temperature > OverheatLimit || ml;
  }

  /** With no rule firing and no model flag the sample is never Critical and
      scores at least 60; it scores 100 only if speed is at most 100 and fuel
      at least 20, since the score's thresholds are stricter than the rules'. */
  lemma QuietSampleScore(f: Features)
    requires !RuleAnomaly(f)
    ensures Score(f, false) >= 60 && Classify(Score(f, false)) != Critical
    ensures Score(f, false) == FullScore <==> f.speed <= SpeedPenaltyLimit && f.fuel >= FuelPenaltyLimit
  {
    RuleAnomalyIffReasons(f);
    ScoreClosedForm(f, false);
  }

  /** Speed 130, fuel 50, temperature 70 with a short history: one reason,
      "Overspeed", yet score 80 and Healthy. */
  lemma HealthyWithOverspeedExample(existing: seq<Features>, model: OutlierModel)
    requires |existing| <= MinHistory
    ensures var f := Features(130.0, 50.0, 70.0);
      var ml := MlAnomaly(existing, f, model);
      !ml && RuleAnomaly(f) && Reasons(f, ml) == ["Overspeed"] &&
      Score(f, ml) == 80 && Classify(Score(f, ml)) == Healthy &&
      Join(Reasons(f, ml)) == "Overspeed"
  {
    var f := Features(130.0, 50.0, 70.0);
    RuleReasonsClosedForm(f);
    RuleAnomalyIffReasons(f);
    ScoreClosedForm(f, false);
  }

  /** Speed 50, fuel 10, temperature 70, no model flag: one reason,
      "Low Fuel", yet score 80 and Healthy. */
  lemma HealthyWithLowFuelExample()
    ensures var f := Features(50.0, 10.0, 70.0);
      RuleAnomaly(f) && Reasons(f, false) == ["Low Fuel"] &&
      Score(f, false) == 80 && Classify(Score(f, false)) == Healthy &&
      Join(Reasons(f, false)) == "Low Fuel"
  {
  }

  /** Speed 105, fuel 17, temperature 70, no model flag: no rule fires and the
      reason text is empty, yet two score penalties give 60 and Warning. */
  lemma WarningWithoutReasonExample()
    ensures var f := Features(105.0, 17.0, 70.0);
      !RuleAnomaly(f) && Reasons(f, false) == [] && Join(Reasons(f, false)) == [] &&
      Score(f, false) == 60 && Classify(Score(f, false)) == Warning
  {
  }

  /** A worse sample (faster, hotter, emptier, flagged if the other was) never
      gets a better severity. */
  lemma WorseSampleNeverBetterSeverity(f: Features, ml: bool, g: Features, ml': bool)
    requires g.speed >= f.speed && g.temperature >= f.temperature && g.fuel <= f.fuel
    requires ml ==> ml'
    ensures Classify(Score(g, ml')).Standing() <= Classify(Score(f, ml)).Standing()
  {
    WorseReadingsNeverRaiseScore(f, ml, g, ml');
    ClassifyMonotone(Score(g, ml'), Score(f, ml));
  }
}
