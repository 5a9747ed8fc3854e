/** The three severity bands the health score falls into. */
module SeverityLevels {

  const HealthyFloor: int := 80
  const WarningFloor: int := 50

  datatype Severity = Healthy | Warning | Critical {
    /** The text stored in the `severity` column. */
    function Name(): string {
      match this
      case Healthy => "Healthy"
      case Warning => "Warning"
      case Critical => "Critical"
    }

    /** How good the band is: Critical 0, Warning 1, Healthy 2. */
    function Standing(): nat {
      match this
      case Critical => 0
      case Warning => 1
      case Healthy => 2
    }
  }

  /** The band of a score: 80 and above Healthy, 50 up to 79 Warning, below 50 Critical. */
  function Classify(score: int): Severity {
    if score >= HealthyFloor then Healthy
    else if score >= WarningFloor then Warning
    else Critical
  }

  /** The standing of a score's band counts the band floors it reaches. */
  lemma ClassifyCountsFloors(score: int)
    ensures Classify(score).Standing() ==
      (if score >= HealthyFloor then 1 else 0) + (if score >= WarningFloor then 1 else 0)
  {
  }

  /** The band edges are inclusive: 80 is Healthy, 79 and 50 are Warning, 49 is Critical. */
  lemma ClassifyBoundaries()
    ensures Classify(80) == Healthy && Classify(79) == Warning
    ensures Classify(50) == Warning && Classify(49) == Critical
  {
  }

  /** A higher score never falls in a worse band. */
  lemma ClassifyMonotone(a: int, b: int)
    requires a <= b
    ensures Classify(a).Standing() <= Classify(b).Standing()
  {
  }

  /** The stored names tell the bands apart and fit the 20-character column. */
  lemma NamesDistinct(s: Severity, t: Severity)
    ensures s.Name() == t.Name() <==> s == t
    ensures |s.Name()| <= 20
  {
  }
}
