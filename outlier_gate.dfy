/** The gate around the learned outlier model: it is fitted on the stored
    feature rows and consulted only once there are more than twenty of them. */
module OutlierGate {
  import opened Readings

  /** The model is consulted only when the store holds more than this many rows. */
  const MinHistory: nat := 20

  /** The label the model's prediction gives an outlier (an inlier gets 1). */
  const OutlierLabel: int := -1

  /** The reason appended when the model flags the sample. */
  const MlReason: string := "ML Pattern Detected"

  /** Fitting the isolation forest on the stored rows and predicting the new
      point, seen from outside: the rows and the point determine a label. */
  type OutlierModel = (seq<Features>, Features) -> int

  /** The stored rows are numerous enough for the model to be fitted. */
  predicate ModelConsulted(history: seq<Features>) {
    |history| > MinHistory
  }

  /** `ml_anomaly`: the model was consulted and labelled the new point an outlier. */
  predicate MlAnomaly(history: seq<Features>, candidate: Features, model: OutlierModel) {
    ModelConsulted(history) && model(history, candidate) == OutlierLabel
  }

  /** With twenty rows or fewer the flag is false, whatever the sample and
      whatever the model would have said. */
  lemma ShortHistoryNeverFlags(history: seq<Features>, candidate: Features, model: OutlierModel)
    requires |history| <= MinHistory
    ensures !MlAnomaly(history, candidate, model)
  {
  }

  /** With more than twenty rows the flag is exactly the model's verdict. */
  lemma LongHistoryFollowsModel(history: seq<Features>, candidate: Features, model: OutlierModel)
    requires |history| > MinHistory
    ensures MlAnomaly(history, candidate, model) <==> model(history, candidate) == OutlierLabel
  {
  }
}
