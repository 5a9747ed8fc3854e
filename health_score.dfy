/** The health score: 100 less a fixed penalty for each condition that holds,
    floored at 0. Its speed and fuel thresholds differ from the rules'. */
module HealthScore {
  import opened Readings

  const FullScore: int := 100

  const SpeedPenaltyLimit: real := 100.0
  const TemperaturePenaltyLimit: real := 85.0
  const FuelPenaltyLimit: real := 20.0

  datatype Penalty = FastDriving | HighTemperature | FuelReserve | LearnedPattern

  /** The penalties, in the order the score applies them. */
  const Penalties: seq<Penalty> := [FastDriving, HighTemperature, FuelReserve, LearnedPattern]

  function Weight(p: Penalty): nat {
    match p
    case FastDriving => 20
    case HighTemperature => 25
    case FuelReserve => 20
    case LearnedPattern => 30
  }

  /** The condition under which a penalty is charged. */
  predicate Applies(p: Penalty, f: Features, ml: bool) {
    match p
    case FastDriving => f.speed > SpeedPenaltyLimit
    case HighTemperature => f.temperature > TemperaturePenaltyLimit
    case FuelReserve => f.fuel < FuelPenaltyLimit
    case LearnedPattern => ml
  }

  /** The sum of the weights of a list of penalties. */
  function TotalWeight(ps: seq<Penalty>): nat {
    if ps == [] then 0 else Weight(ps[0]) + TotalWeight(ps[1..])
  }

  /** What is deducted from the full score: the weights of the charged penalties. */
  function Deduction(ps: seq<Penalty>, f: Features, ml: bool): (d: nat)
    ensures d <= TotalWeight(ps)
  {
    if ps == [] then 0
    else (if Applies(ps[0], f, ml) then Weight(ps[0]) else 0) + Deduction(ps[1..], f, ml)
  }

  /** `max(0, x)`. */
  function Floor0(x: int): int {
    if x < 0 then 0 else x
  }

  /** The health score of a sample given the model's flag. */
  function Score(f: Features, ml: bool): int {
    Floor0(FullScore - Deduction(Penalties, f, ml))
  }

  /** No penalty repeats in a list. */
  predicate Distinct(ps: seq<Penalty>) {
    forall i, j :: 0 <= i < j < |ps| ==> ps[i] != ps[j]
  }

  /** The score lies in [5, 100]: the penalties total 95, so the floor at 0
      never takes effect and the score is exactly 100 less the deduction. */
  lemma ScoreBounds(f: Features, ml: bool)
    ensures 5 <= Score(f, ml) <= FullScore
    ensures Score(f, ml) == FullScore - Deduction(Penalties, f, ml)
  {
  }

  /** The score in closed form:
      max(0, 100 - 20[speed > 100] - 25[temperature > 85] - 20[fuel < 20] - 30[ml]). */
  lemma ScoreClosedForm(f: Features, ml: bool)
    ensures Score(f, ml) == Floor0(100
      - (if f.speed > 100.0 then 20 else 0)
      - (if f.temperature > 85.0 then 25 else 0)
      - (if f.fuel < 20.0 then 20 else 0)
      - (if ml then 30 else 0))
  {
    var rest1, rest2, rest3 := Penalties[1..], Penalties[1..][1..], Penalties[1..][1..][1..];
    assert rest1 == [HighTemperature, FuelReserve, LearnedPattern];
    assert rest2 == [FuelReserve, LearnedPattern];
    assert rest3 == [LearnedPattern] && rest3[1..] == [];
    assert Deduction(rest3, f, ml) == (if ml then 30 else 0);
    assert Deduction(rest2, f, ml) == (if f.fuel < 20.0 then 20 else 0) + Deduction(rest3, f, ml);
    assert Deduction(rest1, f, ml) == (if f.temperature > 85.0 then 25 else 0) + Deduction(rest2, f, ml);
  }

  /** Charging more penalties never deducts less. */
  lemma {:induction false} DeductionMonotone(ps: seq<Penalty>, f: Features, ml: bool, g: Features, ml': bool)
    requires forall p :: Applies(p, f, ml) ==> Applies(p, g, ml')
    ensures Deduction(ps, f, ml) <= Deduction(ps, g, ml')
    decreases |ps|
  {
    if ps != [] {
      DeductionMonotone(ps[1..], f, ml, g, ml');
    }
  }

  /** Charging one more penalty, the others unchanged, deducts exactly its
      weight more, provided it occurs once in the list. */
  lemma {:induction false} DeductionOneMore(ps: seq<Penalty>, p: Penalty, f: Features, ml: bool, g: Features, ml': bool)
    requires Distinct(ps)
    requires !Applies(p, f, ml) && Applies(p, g, ml')
    requires forall q :: q != p ==> (Applies(q, f, ml) <==> Applies(q, g, ml'))
    ensures Deduction(ps, g, ml') == Deduction(ps, f, ml) + (if p in ps then Weight(p) else 0)
    decreases |ps|
  {
    if ps != [] {
      DeductionOneMore(ps[1..], p, f, ml, g, ml');
      assert p in ps <==> ps[0] == p || p in ps[1..];
      if ps[0] == p {
        assert p !in ps[1..] by {
          forall k | 0 <= k < |ps[1..]| ensures ps[1..][k] != p {
            assert ps[1..][k] == ps[k + 1];
          }
        }
      }
    }
  }

  /** If every penalty charged to (f, ml) is also charged to (g, ml'), then
      g's score is at most f's. */
  lemma ScoreMonotone(f: Features, ml: bool, g: Features, ml': bool)
    requires forall p :: Applies(p, f, ml) ==> Applies(p, g, ml')
    ensures Score(g, ml') <= Score(f, ml)
  {
    DeductionMonotone(Penalties, f, ml, g, ml');
    ScoreBounds(f, ml);
    ScoreBounds(g, ml');
  }

  /** A penalty condition turning from false to true, the others fixed,
      lowers the score by exactly that penalty's weight. */
  lemma PenaltyLowersScoreByWeight(p: Penalty, f: Features, ml: bool, g: Features, ml': bool)
    requires !Applies(p, f, ml) && Applies(p, g, ml')
    requires forall q :: q != p ==> (Applies(q, f, ml) <==> Applies(q, g, ml'))
    ensures Score(g, ml') == Score(f, ml) - Weight(p)
  {
    DeductionOneMore(Penalties, p, f, ml, g, ml');
    ScoreBounds(f, ml);
    ScoreBounds(g, ml');
    assert p in Penalties by {
      match p
      case FastDriving => assert Penalties[0] == p;
      case HighTemperature => assert Penalties[1] == p;
      case FuelReserve => assert Penalties[2] == p;
      case LearnedPattern => assert Penalties[3] == p;
    }
  }

  /** A faster, hotter or emptier vehicle, or the model's flag turning on,
      never raises the score. */
  lemma WorseReadingsNeverRaiseScore(f: Features, ml: bool, g: Features, ml': bool)
    requires g.speed >= f.speed && g.temperature >= f.temperature && g.fuel <= f.fuel
    requires ml ==> ml'
    ensures Score(g, ml') <= Score(f, ml)
  {
    ScoreMonotone(f, ml, g, ml');
  }

  /** With no penalty condition true, the score is 100. */
  lemma NoPenaltyFullScore(f: Features)
    requires f.speed <= SpeedPenaltyLimit && f.temperature <= TemperaturePenaltyLimit
    requires f.fuel >= FuelPenaltyLimit
    ensures Score(f, false) == FullScore
  {
    ScoreClosedForm(f, false);
  }
}
