/** The three fixed threshold rules and the reasons they contribute. */
module RuleEngine {
  import opened Readings

  const OverspeedLimit: real := 110.0
  const OverheatLimit: real := 85.0
  const LowFuelLimit: real := 15.0

  datatype Rule = Overspeed | Overheat | LowFuel

  /** The order in which the rules are checked, and so the order of their reasons. */
  const RuleOrder: seq<Rule> := [Overspeed, Overheat, LowFuel]

  /** The threshold condition of each rule (strict comparisons). */
  predicate Fires(r: Rule, f: Features) {
    match r
    case Overspeed => f.speed > OverspeedLimit
    case Overheat => f.temperature > OverheatLimit
    case LowFuel => f.fuel < LowFuelLimit
  }

  /** The reason text a rule contributes. */
  function Label(r: Rule): string {
    match r
    case Overspeed => "Overspeed"
    case Overheat => "Overheat"
    case LowFuel => "Low Fuel"
  }

  /** Position of a rule in the checking order. */
  function Rank(r: Rule): nat {
    match r
    case Overspeed => 0
    case Overheat => 1
    case LowFuel => 2
  }

  /** The rules of `rules` that fire on `f`, in the order of `rules`. */
  function FiredRules(rules: seq<Rule>, f: Features): (fired: seq<Rule>)
    ensures |fired| <= |rules|
  {
    if rules == [] then []
    else (if Fires(rules[0], f) then [rules[0]] else []) + FiredRules(rules[1..], f)
  }

  /** The labels of a list of rules. */
  function Labels(rules: seq<Rule>): (ls: seq<string>)
    ensures |ls| == |rules|
    ensures forall i :: 0 <= i < |rules| ==> ls[i] == Label(rules[i])
  {
    if rules == [] then [] else [Label(rules[0])] + Labels(rules[1..])
  }

  /** The rule reasons of one sample: the labels of the firing rules, in checking order. */
  function RuleReasons(f: Features): seq<string> {
    Labels(FiredRules(RuleOrder, f))
  }

  /** `rule_anomaly`: some rule fires. */
  predicate RuleAnomaly(f: Features) {
    exists r: Rule :: Fires(r, f)
  }

  lemma {:induction false} FiredRulesMember(rules: seq<Rule>, f: Features, r: Rule)
    ensures r in FiredRules(rules, f) <==> r in rules && Fires(r, f)
    decreases |rules|
  {
    if rules != [] {
      FiredRulesMember(rules[1..], f, r);
      assert rules == [rules[0]] + rules[1..];
    }
  }

  /** Filtering keeps the relative order of a list whose ranks strictly increase. */
  lemma {:induction false} FiredRulesOrdered(rules: seq<Rule>, f: Features)
    requires forall i, j :: 0 <= i < j < |rules| ==> Rank(rules[i]) < Rank(rules[j])
    ensures forall i, j :: 0 <= i < j < |FiredRules(rules, f)| ==>
      Rank(FiredRules(rules, f)[i]) < Rank(FiredRules(rules, f)[j])
    decreases |rules|
  {
    if rules != [] {
      var tail := FiredRules(rules[1..], f);
      FiredRulesOrdered(rules[1..], f);
      forall r | r in tail ensures Rank(rules[0]) < Rank(r) {
        FiredRulesMember(rules[1..], f, r);
        var k :| 0 <= k < |rules[1..]| && rules[1..][k] == r;
        assert rules[k + 1] == r;
      }
    }
  }

  /** Position of a reason text in the checking order; texts that are no
      rule's label come after every rule. */
  function ReasonRank(reason: string): nat {
    if reason == "Overspeed" then 0
    else if reason == "Overheat" then 1
    else if reason == "Low Fuel" then 2
    else 3
  }

  lemma LabelRank(r: Rule)
    ensures ReasonRank(Label(r)) == Rank(r)
  {
  }

  /** Each reason appears exactly when its threshold holds:
      "Overspeed" iff speed > 110, "Overheat" iff temperature > 85,
      "Low Fuel" iff fuel < 15. */
  lemma ReasonIffThreshold(f: Features, r: Rule)
    ensures Label(r) in RuleReasons(f) <==> Fires(r, f)
  {
    var fired := FiredRules(RuleOrder, f);
    FiredRulesMember(RuleOrder, f, r);
    if Label(r) in RuleReasons(f) {
      var i :| 0 <= i < |fired| && RuleReasons(f)[i] == Label(r);
      LabelRank(fired[i]);
      LabelRank(r);
      assert Rank(fired[i]) == Rank(r);
    }
  }

  /** The three reasons, concretely. */
  lemma RuleReasonsThresholds(f: Features)
    ensures "Overspeed" in RuleReasons(f) <==> f.speed > 110.0
    ensures "Overheat" in RuleReasons(f) <==> f.temperature > 85.0
    ensures "Low Fuel" in RuleReasons(f) <==> f.fuel < 15.0
  {
    ReasonIffThreshold(f, Overspeed);
    ReasonIffThreshold(f, Overheat);
    ReasonIffThreshold(f, LowFuel);
  }

  /** Rule reasons come in the checking order Overspeed, Overheat, Low Fuel:
      their ranks strictly increase, so none repeats and there are at most three. */
  lemma RuleReasonsOrdered(f: Features)
    ensures forall i, j :: 0 <= i < j < |RuleReasons(f)| ==>
      ReasonRank(RuleReasons(f)[i]) < ReasonRank(RuleReasons(f)[j])
    ensures forall i :: 0 <= i < |RuleReasons(f)| ==> ReasonRank(RuleReasons(f)[i]) < 3
    ensures |RuleReasons(f)| <= 3
  {
    var fired := FiredRules(RuleOrder, f);
    var rs := RuleReasons(f);
    FiredRulesOrdered(RuleOrder, f);
    forall i | 0 <= i < |rs| ensures ReasonRank(rs[i]) == Rank(fired[i]) < 3 {
      LabelRank(fired[i]);
    }
  }

  /** `rule_anomaly` holds iff some threshold holds, iff the rule-reason list is non-empty. */
  lemma RuleAnomalyIffReasons(f: Features)
    ensures RuleAnomaly(f) <==> RuleReasons(f) != []
    ensures RuleAnomaly(f) <==>
      (f.speed > OverspeedLimit || f.temperature > OverheatLimit || f.fuel < LowFuelLimit)
  {
    RuleReasonsThresholds(f);
    if RuleAnomaly(f) {
      var r :| Fires(r, f);
      ReasonIffThreshold(f, r);
    }
    if RuleReasons(f) != [] {
      var fired := FiredRules(RuleOrder, f);
      FiredRulesMember(RuleOrder, f, fired[0]);
    }
  }

  /** The rule reasons in closed form: one optional reason per rule, checked in turn. */
  lemma RuleReasonsClosedForm(f: Features)
    ensures RuleReasons(f) ==
      (if f.speed > OverspeedLimit then ["Overspeed"] else []) +
      (if f.temperature > OverheatLimit then ["Overheat"] else []) +
      (if f.fuel < LowFuelLimit then ["Low Fuel"] else [])
  {
    var rest1, rest2 := RuleOrder[1..], RuleOrder[1..][1..];
    assert rest1 == [Overheat, LowFuel] && rest2 == [LowFuel] && rest2[1..] == [];
    var fired2 := FiredRules(rest2, f);
    var fired1 := FiredRules(rest1, f);
    assert fired2 == (if Fires(LowFuel, f) then [LowFuel] else []);
    assert fired1 == (if Fires(Overheat, f) then [Overheat] else []) + fired2;
    assert FiredRules(RuleOrder, f) == (if Fires(Overspeed, f) then [Overspeed] else []) + fired1;
  }
}
