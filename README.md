# Vehicle telemetry anomaly scoring, in Dafny

This project models the evaluation pipeline of the vehicle telemetry service:
the POST branch of `telemetry_list` that takes one telemetry sample (speed,
fuel level, temperature, latitude, longitude) and the rows already stored, and
builds the record that is stored for it: the rule flag, the learned-model flag,
the " | "-joined reason text, the health score and the severity.

The pipeline, module by module:

- `Readings` — the parsed sample and its (speed, fuel, temperature) feature projection.
- `RuleEngine` — three fixed, independent threshold rules (speed > 110 "Overspeed",
  temperature > 85 "Overheat", fuel < 15 "Low Fuel"), specified as a filter of
  the rule catalogue in checking order.
- `OutlierGate` — the isolation-forest step, an uninterpreted model function
  from (stored rows, new point) to the predicted label, consulted only when
  more than 20 rows are stored; label -1 flags the sample.
- `HealthScore` — 100 less 20 (speed > 100), 25 (temperature > 85), 20 (fuel < 20)
  and 30 (model flag), floored at 0; specified as a sum over a penalty catalogue.
- `SeverityLevels` — Healthy from 80, Warning from 50, Critical below.
- `ReasonText` — Python's `" | ".join`, with a splitting function as its
  inverse.
- `TelemetryPost` — `Evaluate`, an imperative method that follows the source
  step by step (flags set by successive `if`s, a reason list grown by appends,
  a score decremented and clamped) and is proved against the functions above;
  plus the lemmas about the whole verdict.

Behaviour of the code that a reader might not expect:

- The outlier model is fitted on every stored row of every vehicle (the query
  is unfiltered), not on one vehicle's history.
- There is no range check on the fuel level and no validation step beyond
  `float(...)` parsing.
- It is sometimes expected that a sample that fires no rule and is not flagged
  scores 100. It does not: speed in (100, 110] and fuel in [15, 20)
  are charged by the score but fire no rule. `QuietSampleScore` states what
  does hold (at least 60, never Critical, 100 exactly when speed <= 100 and
  fuel >= 20), and `WarningWithoutReasonExample` shows a Warning with an
  empty reason text.
- A Healthy verdict can carry "Low Fuel" as well as "Overspeed" (fuel below 15
  costs only 20 points). `HealthyCarriesAtMostOneReason` bounds the reasons of
  a Healthy verdict to no reason, "Overspeed" alone or "Low Fuel" alone, and
  `HealthyWithOverspeedExample` and `HealthyWithLowFuelExample` show that both
  single reasons occur.
- The scores never fall below 5, so the `max(0, ...)` clamp never changes a
  score (`ScoreBounds`).
- No degenerate-fit handling exists in the code; the model function is total.

## Model

| member | source | states |
|---|---|---|
| `TelemetryPost.Evaluate` | telemetry/views.py:17-106 | the stored record copies the five sample fields; its rule flag is "some rule fires"; its model flag is "more than 20 stored rows and the model predicts -1"; its reason text is the join of the rule reasons followed by the model reason when flagged; its score and severity are those of the score and band functions |
| `RuleEngine.ReasonIffThreshold` | telemetry/views.py:31-41 | a rule's reason is among the rule reasons exactly when its threshold holds |
| `RuleEngine.RuleReasonsThresholds` | telemetry/views.py:31-41 | "Overspeed" iff speed > 110, "Overheat" iff temperature > 85, "Low Fuel" iff fuel < 15 |
| `RuleEngine.RuleReasonsOrdered` | telemetry/views.py:29-41 | the rule reasons come in the order Overspeed, Overheat, Low Fuel: their ranks strictly increase, so none repeats and there are at most three |
| `RuleEngine.RuleAnomalyIffReasons` | telemetry/views.py:28-41 | `rule_anomaly` holds iff one of the three thresholds holds, iff the rule-reason list is non-empty |
| `RuleEngine.RuleReasonsClosedForm` | telemetry/views.py:29-41 | the catalogue filter equals three optional appends in checking order |
| `OutlierGate.ShortHistoryNeverFlags` | telemetry/views.py:50-52 | with 20 stored rows or fewer the model flag is false for every sample and every model |
| `OutlierGate.LongHistoryFollowsModel` | telemetry/views.py:52-61 | with more than 20 stored rows the model flag is exactly "the prediction is -1" |
| `HealthScore.ScoreBounds` | telemetry/views.py:67-81 | the score lies in [5, 100] and equals 100 less the deduction, so the clamp at 0 never takes effect |
| `HealthScore.ScoreClosedForm` | telemetry/views.py:67-81 | score = max(0, 100 - 20[speed > 100] - 25[temperature > 85] - 20[fuel < 20] - 30[model flag]) |
| `HealthScore.ScoreMonotone` | telemetry/views.py:67-81 | when every penalty charged to one sample is charged to another, the other's score is no higher |
| `HealthScore.PenaltyLowersScoreByWeight` | telemetry/views.py:69-79 | one penalty condition turning true, the others fixed, lowers the score by exactly that penalty's weight |
| `HealthScore.WorseReadingsNeverRaiseScore` | telemetry/views.py:67-81 | higher speed, higher temperature, lower fuel or the model flag turning on never raises the score |
| `HealthScore.NoPenaltyFullScore` | telemetry/views.py:67-81 | with no penalty condition true the score is 100 |
| `SeverityLevels.ClassifyCountsFloors` | telemetry/views.py:86-91 | a score's band is as good as the number of band floors (80, 50) it reaches |
| `SeverityLevels.ClassifyBoundaries` | telemetry/views.py:86-91 | 80 is Healthy, 79 and 50 are Warning, 49 is Critical |
| `SeverityLevels.ClassifyMonotone` | telemetry/views.py:86-91 | a higher score never falls in a worse band |
| `SeverityLevels.NamesDistinct` | telemetry/models.py:16 | the three severity names are distinct and fit the 20-character column |
| `ReasonText.Join` | telemetry/views.py:93 | the joined text starts with the first reason and is as long as the reasons plus 3 characters per separator (empty for no reasons) |
| `ReasonText.JoinParseRoundTrip` | telemetry/views.py:93 | for non-empty parts without '\|', parsing the joined text gives the parts back |
| `ReasonText.JoinLengthBound` | telemetry/views.py:93 | parts of at most k characters join to at most k + 3 characters per part |
| `TelemetryPost.ReasonsOrdered` | telemetry/views.py:29-62 | the reasons come in the order Overspeed, Overheat, Low Fuel, ML Pattern Detected without repeats; the model reason is present iff the model flagged, and then it comes last, after all rule reasons |
| `TelemetryPost.ReasonsClean` | telemetry/views.py:33-62 | every reason text is non-empty and contains no '\|' |
| `TelemetryPost.AnomalyReasonRoundTrip` | telemetry/views.py:93 | the stored reason text parses back to the reason list |
| `TelemetryPost.AnomalyReasonEmptyIff` | telemetry/views.py:28-93 | the reason text is empty iff no rule fired and the model did not flag |
| `TelemetryPost.AnomalyReasonFitsColumn` | telemetry/models.py:14 | the reason text is at most 255 characters, the column's length |
| `TelemetryPost.HealthyCarriesAtMostOneReason` | telemetry/views.py:31-91 | a Healthy verdict is never model-flagged and carries no reason, "Overspeed" alone or "Low Fuel" alone |
| `TelemetryPost.CriticalCarriesReason` | telemetry/views.py:35-91 | a Critical verdict always carries "Overheat" or the model reason |
| `TelemetryPost.QuietSampleScore` | telemetry/views.py:28-81 | a sample that fires no rule and is not flagged scores at least 60 and is never Critical; it scores 100 iff speed <= 100 and fuel >= 20 |
| `TelemetryPost.HealthyWithOverspeedExample` | telemetry/views.py:31-91 | speed 130, fuel 50, temperature 70 with at most 20 stored rows: rule flag set, reasons ["Overspeed"], score 80, Healthy |
| `TelemetryPost.HealthyWithLowFuelExample` | telemetry/views.py:39-91 | speed 50, fuel 10, temperature 70, no model flag: rule flag set, reasons ["Low Fuel"], score 80, Healthy |
| `TelemetryPost.WarningWithoutReasonExample` | telemetry/views.py:31-91 | speed 105, fuel 17, temperature 70, no model flag: no rule fires and the reason text is empty, yet score 60 and Warning |
| `TelemetryPost.WorseSampleNeverBetterSeverity` | telemetry/views.py:67-91 | a faster, hotter or emptier sample, or one the model flags when the other was flagged, never gets a better band |

## Left out

- Parsing the request fields with `float(...)` and the errors it raises on a
  missing or malformed field: the model takes the parsed values. NaN and
  infinities are not representable as `real`, so samples holding them are not modelled.
- The isolation forest itself (building the feature matrix, fitting with
  contamination 0.1, predicting): it is a randomised floating-point library
  call, modelled as an uninterpreted function of the stored rows and the new
  point.
- The database query for the stored rows, the write of the new record, its
  timestamp and id, the GET branch and the HTTP layer: input and output. The
  model returns the record that would be written.
- `health_score` is stored in a floating-point column; the model keeps the integer.
- The dashboard, the simulator and the serializer are not part of this model:
  display, random input generation and framework glue.
