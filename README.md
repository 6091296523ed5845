# Civic infrastructure platform: verified model of its core logic

This project models the decision logic of a civic infrastructure platform in Dafny. Citizens
report road hazards. Administrators follow them on a command-center map, assign them to
contractors as work orders with milestones, and plan emergency routes around high-risk
incidents. Contractors move milestones towards approval, optionally through an escrow payment
service. A set of Python services scores road damage from images, flags usage anomalies and
forecasts energy demand.

One Dafny module stands for each core source file:

- `AdminContractor`, `ContractorDashboard`, `Payment`: the work-order controllers on the server.
- `ContractorView`: the contractor's milestone roadmap.
- `AdminStats`: the report endpoints.
- `AdminView`: the command-center page.
- `HazardMap`: the map helpers.
- `EmergencyRoutes`: the route planner page.
- `ResourceOptimization`: the resource optimisation engine.
- `DamageHeuristic`, `DamageYolo`: the two damage detectors.
- `AnomalyDetection`, `Forecasting`: the anomaly and forecasting services.

Several modules are shared:

- `Common`: optional values, and the outcome of a request handler.
- `JsSemantics`: the JavaScript built-ins the code relies on (ToInt32, UTF-16 code units,
  `String(n)`, `parseInt`, `Math.round`).
- `WorkOrders`: the work-order and milestone rows, with the status words.
- `Reports`: the report rows, and counting over them.
- `DamageScoring`: the severity, health score and label that both detectors share.

Database queries, HTTP calls, the clock and the browser are not executed. Each becomes a
parameter of the operation that uses it:

- the row a query fetched, as an `Option` that is `None` when the query failed;
- whether the escrow service accepted a call;
- the routing service's reply;
- the clock reading `now`;
- the square root of the variance.

A handler's error response is `Fail(status, message)`. A JavaScript `TypeError` or Python
exception that the handler turns into a 500 response is `Fail(500, RUNTIME_ERROR)`.

Where the code and its design description disagree, the model follows the code:

- Python `int()` truncates the health score `(1 − severity)·100`. The design describes rounding.
  `DamageScoring.HealthScore` truncates.
- The design asks for explicit errors on an empty anomaly table and on a forecast history with
  fewer than two points. The code has no such checks. An empty column yields a NaN mean and
  threshold, modelled as `None`. An empty history makes `np.polyfit` raise. A one-point history
  leaves its normal equations singular: NumPy divides zero by zero while scaling the
  Vandermonde column, so the fit either raises or returns a NaN slope. Both are modelled as
  `Fail(500, RUNTIME_ERROR)`, the answer for a history of fewer than two points.

## Model

| member | source | states |
|---|---|---|
| JsSemantics.ToInt32 | frontend/src/components/admin/HazardMap.jsx:28 | the result is a signed 32-bit integer congruent to the input modulo 2^32 |
| JsSemantics.ToInt32Congruent | frontend/src/components/admin/HazardMap.jsx:27-28 | inputs congruent modulo 2^32 convert to the same 32-bit value |
| JsSemantics.CodeUnits | frontend/src/components/admin/HazardMap.jsx:25-26 | `charCodeAt` reads between one and two UTF-16 code units per character, exactly the characters' own codes when all lie in the Basic Multilingual Plane |
| JsSemantics.NatToString | backend/src/controllers/payment.controller.js:75 | the decimal rendering of a number is a non-empty string of decimal digits |
| JsSemantics.IntToString | frontend/src/components/admin/HazardMap.jsx:23 | the rendering of an integer starts with '-' exactly when it is negative |
| JsSemantics.DigitsValueOfNatToString | frontend/src/pages/admin/Dashboard.jsx:47 | the digits of a rendered number read back as that number |
| JsSemantics.ParseMagnitudeOfDigits | backend/src/controllers/payment.controller.js:107 | a non-empty run of decimal digits parses to its decimal value (no hexadecimal prefix applies) |
| JsSemantics.ParseIntOfUnsigned | backend/src/controllers/payment.controller.js:107 | a string starting with a digit is parsed without white space or sign handling |
| JsSemantics.ParseIntOfNegated | backend/src/controllers/payment.controller.js:107 | a '-' followed by a parsable digit string parses to the negated magnitude |
| JsSemantics.ParseIntOfIntToString | frontend/src/pages/admin/Dashboard.jsx:47 | `parseInt(String(i))` gives back `i` for every integer |
| JsSemantics.JsRound | backend/src/controllers/admin/dashboard.controller.js:64 | `Math.round` lands within half a unit of its argument, halves going up |
| WorkOrders.WithStatus | backend/src/controllers/admin/contractor.controller.js:99-103 | writing a status into milestone i changes only that milestone's status: its other fields and every other milestone stay as they were |
| WorkOrders.WithSameStatusIsIdentity | backend/src/controllers/admin/contractor.controller.js:103 | re-approving a completed milestone leaves the list unchanged |
| WorkOrders.ApplyApprovals | backend/src/controllers/admin/contractor.controller.js:99-103 | a sequence of approvals keeps the number of milestones |
| WorkOrders.ApprovalsComplete | backend/src/controllers/admin/contractor.controller.js:99-107 | after a sequence of approvals a milestone is completed iff it was approved or already completed; titles never change |
| WorkOrders.ApprovingEveryIndexCompletesAll | backend/src/controllers/admin/contractor.controller.js:106-107 | approving every index, in any order and with repetitions, makes every milestone completed |
| AdminContractor.FormatMilestones | backend/src/controllers/admin/contractor.controller.js:43-47 | same length and order as the input; each keeps title and description, is pending and carries nothing else |
| AdminContractor.AssignWork | backend/src/controllers/admin/contractor.controller.js:33-73 | a missing report fails with "Report not found" before anything is written; a missing milestone list throws; otherwise the new order is assigned, priority defaults to Medium, deadline to null, notes to '', milestones are the formatted ones, and the report moves to IN_PROGRESS |
| AdminContractor.ApproveMilestone | backend/src/controllers/admin/contractor.controller.js:97-114 | a missing order or an index without a milestone fails; otherwise only that milestone becomes completed, the order is completed iff every other milestone already was (else keeps its status), and completed_at is set iff it is completed |
| ContractorDashboard.CompletedOrders | backend/src/controllers/contractor/dashboard.controller.js:31 | exactly the orders with status `completed` are kept, each as many times as it occurs in the input |
| ContractorDashboard.PendingOrders | backend/src/controllers/contractor/dashboard.controller.js:33 | exactly the orders whose status is not `completed` are kept, each as many times as it occurs in the input |
| ContractorDashboard.GetDashboardData | backend/src/controllers/contractor/dashboard.controller.js:9-36 | a missing user-id header gives 401 and nothing else does; pending plus completed works equals the number of orders; earnings sum the completed orders' costs |
| ContractorDashboard.CountsPartition | backend/src/controllers/contractor/dashboard.controller.js:33-34 | completed and pending counts add up to the number of orders |
| ContractorDashboard.EarningsOfAppendedOrder | backend/src/controllers/contractor/dashboard.controller.js:30-32 | one more order adds its cost (null as 0) to the earnings iff it is completed |
| ContractorDashboard.EarningsNonNegative | backend/src/controllers/contractor/dashboard.controller.js:30-32 | with non-negative costs the earnings are never negative |
| ContractorDashboard.UpdateOrderStatus | backend/src/controllers/contractor/dashboard.controller.js:53-56 | the status is written as given, and completed_at is written iff the status is exactly `completed` |
| ContractorDashboard.RequestMilestoneVerification | backend/src/controllers/contractor/dashboard.controller.js:90-96 | an out-of-range index fails; otherwise only the indexed milestone becomes `review`, whatever it was, with no check on earlier milestones |
| Payment.CreateIntentForWorkOrder | backend/src/controllers/payment.controller.js:14-30 | an order that already has an intent is refused with 400; the amount falls back to the estimated cost and the description to "Escrow for Work Order #id"; succeeds iff the order was fetched, has no intent, and some amount is available |
| Payment.SyncPayload | backend/src/controllers/payment.controller.js:72-77 | the payload carries its array position, the title or "Phase i+1", and the amount or "0" |
| Payment.SyncMilestones | backend/src/controllers/payment.controller.js:55-79 | no intent gives 404; no milestone array gives 400; otherwise exactly one payload per milestone, in order, indexed by array position |
| Payment.SyncOfAssignedOrder | backend/src/controllers/payment.controller.js:71-77 | a freshly assigned order syncs with amount "0" everywhere and its own titles |
| Payment.WithProof | backend/src/controllers/payment.controller.js:120-122 | only the indexed milestone changes, to status REVIEW with the proof time |
| Payment.SubmitMilestoneProof | backend/src/controllers/payment.controller.js:97-122 | no intent gives 404; a NaN index or one without a milestone gives 400; a refused escrow call fails; otherwise only that milestone is marked REVIEW and stamped |
| Payment.ProofAndReviewRequestDiffer | backend/src/controllers/payment.controller.js:121 | the escrow proof status REVIEW is never the contractor's review status `review` |
| ContractorView.RoadmapRow | frontend/src/pages/contractor/Dashboard.jsx:163-210 | locked iff pending, not first, and the previous milestone is not completed; ✓ marker iff completed; Request Review only for pending, disabled and "Wait for Previous" when locked; review shows Review In Progress; anything else shows Completed |
| ContractorView.NeverLocked | frontend/src/pages/contractor/Dashboard.jsx:173 | the first milestone and every non-pending milestone are never locked |
| ContractorView.FreshOrderRoadmap | frontend/src/pages/contractor/Dashboard.jsx:169-200 | on an all-pending order exactly the milestones after the first are locked, and all show their position |
| ContractorView.ApprovalUnlocksNext | frontend/src/pages/contractor/Dashboard.jsx:173 | approving milestone i−1 unlocks milestone i |
| ContractorView.EscrowReviewShowsCompleted | frontend/src/pages/contractor/Dashboard.jsx:191-210 | a milestone marked REVIEW by the escrow path shows the Completed badge although it was never approved |
| Reports.Count | backend/src/controllers/admin/dashboard.controller.js:60-62 | a filter count is at most the list length, 0 iff no report matches, the full length iff all match |
| Reports.CountMonotone | frontend/src/pages/admin/Dashboard.jsx:60-62 | a weaker filter never counts fewer reports |
| Reports.CountDisjoint | backend/src/controllers/admin/dashboard.controller.js:60-62 | two filters no report satisfies together count at most the list length |
| Reports.CountComplement | backend/src/controllers/admin/dashboard.controller.js:60-62 | a filter and its negation count exactly the list length |
| Reports.CountStatus | backend/src/controllers/admin/dashboard.controller.js:60-62 | an exact status count is at most the number of reports |
| AdminStats.UpdateReportStatus | backend/src/controllers/admin/dashboard.controller.js:31-33 | status is in the update iff it is truthy; risk_score is in it iff defined, so 0 and null are written |
| AdminStats.ApplyUpdate | backend/src/controllers/admin/dashboard.controller.js:35-39 | an update changes only the fields it carries |
| AdminStats.ApplyUpdateIdempotent | backend/src/controllers/admin/dashboard.controller.js:31-39 | applying the same update twice equals applying it once |
| AdminStats.GetDashboardStats | backend/src/controllers/admin/dashboard.controller.js:58-66 | total is the number of reports; the three counts are exact status matches; the average is 0 for no reports, else within half a unit of the mean risk with nulls as 0 |
| AdminStats.StatusCountsWithinTotal | backend/src/controllers/admin/dashboard.controller.js:59-62 | pending + resolved + inProgress never exceeds total |
| AdminStats.CountSplit | backend/src/controllers/admin/dashboard.controller.js:60-62 | a filter that is the disjoint union of two others counts their sum |
| AdminStats.SumRiskBounds | backend/src/controllers/admin/dashboard.controller.js:64 | the risk total lies between n·min and n·max |
| AdminStats.MeanRiskWithinBounds | backend/src/controllers/admin/dashboard.controller.js:64 | the unrounded mean risk lies between the smallest and the largest score |
| AdminStats.AverageWithinBounds | backend/src/controllers/admin/dashboard.controller.js:63-64 | the rounded average lies between the smallest and the largest score |
| AdminView.ToHazard | frontend/src/pages/admin/Dashboard.jsx:43-51 | a hazard keeps id and coordinates; its severity is the score or 0 for null, its type "Hazard" without a category, its status "UNKNOWN" without one, its time the clock without a creation time |
| AdminView.MapHazards | frontend/src/pages/admin/Dashboard.jsx:41-51 | never more hazards than reports; every hazard has non-zero coordinates |
| AdminView.LocatedReportsMapped | frontend/src/pages/admin/Dashboard.jsx:41-42 | every report with truthy coordinates has its hazard on the map |
| AdminView.HazardCount | frontend/src/pages/admin/Dashboard.jsx:41-42 | the map holds exactly one hazard per located report |
| AdminView.CriticalAtMostUnresolved | frontend/src/pages/admin/Dashboard.jsx:60 | critical reports (score ≥ 70, not RESOLVED) and resolved reports together never exceed the total |
| AdminView.ResolvedTodayAtMostResolved | frontend/src/pages/admin/Dashboard.jsx:62 | resolved-today is at most the number of RESOLVED reports |
| AdminView.NumberOrZero | frontend/src/pages/admin/Dashboard.jsx:65-67 | a missing or non-numeric figure reads as 0, a number as itself |
| AdminView.HeaderFigures | frontend/src/pages/admin/Dashboard.jsx:60-69 | active = inProgress + pending with missing values as 0; critical and resolved-today are the report counts; resolved-today is at most the resolved count |
| AdminView.ActiveFromServerStats | frontend/src/pages/admin/Dashboard.jsx:65 | fed with the server's statistics, active counts the in-progress and pending reports and never exceeds the number of reports |
| AdminView.Swap | frontend/src/pages/admin/Dashboard.jsx:211 | exchanges two feed entries, nothing else changes, the multiset is kept |
| AdminView.SortFeed | frontend/src/pages/admin/Dashboard.jsx:211 | the feed ends in non-increasing severity and is a permutation of the original |
| HazardMap.BandOf | frontend/src/components/admin/HazardMap.jsx:9-19 | ≥ 70 is the critical band, 50 to 69 high, below 50 medium |
| HazardMap.SeverityColor | frontend/src/components/admin/HazardMap.jsx:9-13 | red for ≥ 70, orange for ≥ 50, yellow otherwise |
| HazardMap.SeverityLabel | frontend/src/components/admin/HazardMap.jsx:15-19 | Critical for ≥ 70, High for ≥ 50, Medium otherwise |
| HazardMap.ColorAndLabelAgree | frontend/src/components/admin/HazardMap.jsx:9-19 | two severities share a colour iff they share a band iff they share a label |
| HazardMap.IdString | frontend/src/components/admin/HazardMap.jsx:23 | a null, empty or 0 id becomes the empty string |
| HazardMap.HashStep | frontend/src/components/admin/HazardMap.jsx:27-28 | the shift-subtract-add step with its 32-bit truncations equals 31·h + c reduced to 32 bits |
| HazardMap.HashLoopStep | frontend/src/components/admin/HazardMap.jsx:25-29 | one loop step keeps the hash equal to the reduced polynomial of the units read so far |
| HazardMap.GetHash | frontend/src/components/admin/HazardMap.jsx:22-31 | the hash is a signed 32-bit integer equal to Σ cᵢ·31^(n−1−i) reduced to 32 bits |
| HazardMap.EmptyIdHashesToZero | frontend/src/components/admin/HazardMap.jsx:23-30 | a null, empty or 0 id hashes to 0 |
| HazardMap.JitteredPosition | frontend/src/components/admin/HazardMap.jsx:34-44 | a zero or NaN coordinate gives [0, 0] and nothing else does; otherwise the position is seeded by the id's hash |
| HazardMap.MappedHazardsUsable | frontend/src/components/admin/HazardMap.jsx:36 | no hazard the command-center page maps is drawn at the origin |
| EmergencyRoutes.HighRiskIncidents | frontend/src/pages/admin/EmergencyRoutes.jsx:130-132 | exactly the incidents with risk ≥ 70 and truthy coordinates are kept, each as many times as it occurs in the input |
| EmergencyRoutes.AvoidZones | frontend/src/pages/admin/EmergencyRoutes.jsx:135-137 | one 150 m zone per high-risk incident, in the same order |
| EmergencyRoutes.RouteRequestFor | frontend/src/pages/admin/EmergencyRoutes.jsx:129-154 | coordinates are [lng, lat] of origin then destination; avoid polygons are attached iff some incident is high-risk, and then they are the zones of the high-risk incidents, one each, in incident order |
| EmergencyRoutes.AvoidedExactlyHighRisk | frontend/src/pages/admin/EmergencyRoutes.jsx:130-137 | every high-risk incident has its zone in the request |
| EmergencyRoutes.AvoidZoneFromHighRiskIncident | frontend/src/pages/admin/EmergencyRoutes.jsx:130-137 | every zone in the request is centred on a high-risk incident |
| EmergencyRoutes.HighRiskIncidentsAppend | frontend/src/pages/admin/EmergencyRoutes.jsx:130-132 | filtering a concatenation is the concatenation of the filtered parts, so the filter keeps incident order |
| EmergencyRoutes.IncidentColor | frontend/src/pages/admin/EmergencyRoutes.jsx:202-206 | red for ≥ 80, amber for ≥ 50, green otherwise |
| EmergencyRoutes.AvoidedIncidentsNotGreen | frontend/src/pages/admin/EmergencyRoutes.jsx:202-206 | an avoided incident is never drawn green |
| EmergencyRoutes.RoutePlanner.constructor | frontend/src/pages/admin/EmergencyRoutes.jsx:37-43 | the page starts with no incidents, points, route or selection |
| EmergencyRoutes.RoutePlanner.LoadIncidents | frontend/src/pages/admin/EmergencyRoutes.jsx:50-53 | loading replaces the incidents and nothing else |
| EmergencyRoutes.RoutePlanner.Select | frontend/src/pages/admin/EmergencyRoutes.jsx:236 | the selection buttons arm the next click and change nothing else |
| EmergencyRoutes.RoutePlanner.UseCurrentLocation | frontend/src/pages/admin/EmergencyRoutes.jsx:67-72 | the browser position becomes the origin and nothing else changes |
| EmergencyRoutes.RoutePlanner.MapClick | frontend/src/pages/admin/EmergencyRoutes.jsx:83-92 | in origin mode the click sets the origin and disarms; in destination mode it sets the destination and disarms; unarmed it changes nothing |
| EmergencyRoutes.RoutePlanner.ClearRoute | frontend/src/pages/admin/EmergencyRoutes.jsx:208-213 | origin, destination, route and selection all become null; incidents stay |
| EmergencyRoutes.RoutePlanner.CalculateRoute | frontend/src/pages/admin/EmergencyRoutes.jsx:118-200 | without both points it is refused and nothing is sent; without an API key it fails; otherwise the request is RouteRequestFor the current state and the route is replaced iff the service returns one |
| ResourceOptimization.Divide | backend/src/controllers/admin/optimization.controller.js:15 | IEEE division: a finite quotient for a non-zero divisor, +Infinity iff a positive numerator over 0, NaN iff 0/0 |
| ResourceOptimization.AlertsAt | backend/src/controllers/admin/optimization.controller.js:14-41 | a surge alert iff the deviation from the trailing-7 mean exceeds 0.8, CRITICAL iff it exceeds 1.5; a CRITICAL leak alert iff the hour is 1 to 4 and water > 35; surge first; all with the sample's timestamp |
| ResourceOptimization.Generated | backend/src/controllers/admin/optimization.controller.js:12-42 | the first 7 samples generate nothing; at most two alerts per later sample |
| ResourceOptimization.WaterHistoryIrrelevant | backend/src/controllers/admin/optimization.controller.js:28-33 | the water readings of the window never change the alerts (waterDeviation is unused) |
| ResourceOptimization.SteadyLoadNoSurge | backend/src/controllers/admin/optimization.controller.js:14-17 | a sample equal to its flat positive window raises no surge |
| ResourceOptimization.ReverseInPlace | backend/src/controllers/admin/optimization.controller.js:45 | after reversal position k holds what position n−1−k held |
| ResourceOptimization.CollectAlerts | backend/src/controllers/admin/optimization.controller.js:10-42 | the scan produces exactly the generated alerts, in generation order |
| ResourceOptimization.NewestFirst | backend/src/controllers/admin/optimization.controller.js:45 | at most 5 alerts are kept, the newest first |
| ResourceOptimization.DetectAnomalies | backend/src/controllers/admin/optimization.controller.js:9-46 | the answer is the last min(5, n) generated alerts in reverse generation order |
| ResourceOptimization.GetRecommendations | backend/src/controllers/admin/optimization.controller.js:48-81 | one card per alert in alert order (load balancing for a surge, pipe isolation for a leak), or exactly the dimming card when there are no alerts; never empty |
| ResourceOptimization.SurgeCardsMatchSurges | backend/src/controllers/admin/optimization.controller.js:51-68 | an alert's card is the load-balancing card iff the alert is a surge, and never the dimming card |
| DamageScoring.Severity | ml-services/services/damage_detection.py:27 | at most 1; non-negative for a non-negative area; the area fraction up to the full image, 1 beyond |
| DamageScoring.Truncate | ml-services/services/damage_detection.py:29 | Python `int()` truncates toward zero |
| DamageScoring.HealthScore | ml-services/services/damage_detection.py:29 | within [0, 100] for a severity in [0, 1]; 100 for severity 0 and 0 for severity 1 |
| DamageScoring.Label | ml-services/services/damage_detection.py:31-36 | pothole iff above the high threshold; crack iff above the low one but not the high one; normal otherwise |
| DamageScoring.LabelMonotone | ml-services/services/damage_detection.py:31-36 | a larger severity never gets a milder label |
| DamageScoring.HealthMonotone | ml-services/services/damage_detection.py:29 | a larger severity never gets a higher health score |
| DamageScoring.Score | ml-services/services/damage_detection.py:27-36 | the report combines severity, health and label; no damage gives normal, 0 and 100 |
| DamageHeuristic.DarkMask | ml-services/services/damage_detection.py:13 | a pixel is masked iff its grey value is in [0, 85] |
| DamageHeuristic.QualifyingArea | ml-services/services/damage_detection.py:20-25 | the qualifying area is never negative |
| DamageHeuristic.SmallContourIgnored | ml-services/services/damage_detection.py:24 | a contour of area 2500 or less changes nothing |
| DamageHeuristic.QualifyingAreaCoversEach | ml-services/services/damage_detection.py:22-25 | the damaged area is at least each large contour's area |
| DamageHeuristic.DetectDamage | ml-services/services/damage_detection.py:20-36 | the result scores the summed area of the contours above 2500 with thresholds 0.25/0.08; severity in [0, 1], health in [0, 100]; no large contour gives normal, 0 and 100 |
| DamageYolo.BoxArea | ml-services/services/damage_detection_yolo.py:22 | a well-formed box has non-negative area |
| DamageYolo.DamageAreaNonNegative | ml-services/services/damage_detection_yolo.py:19-23 | well-formed boxes never give a negative damaged area |
| DamageYolo.DuplicateBoxCountedTwice | ml-services/services/damage_detection_yolo.py:19-23 | overlaps are not merged: a box reported twice counts twice |
| DamageYolo.DetectDamage | ml-services/services/damage_detection_yolo.py:14-40 | the result scores the summed box areas with thresholds 0.35/0.12; boxes_detected is the number of boxes; no boxes gives normal, 0 and 100; well-formed boxes keep severity in [0, 1] and health in [0, 100] |
| AnomalyDetection.Square | ml-services/services/anomaly_detection.py:9 | a square is never negative |
| AnomalyDetection.SquaredDeviations | ml-services/services/anomaly_detection.py:9 | the sum of squared deviations is never negative |
| AnomalyDetection.Variance | ml-services/services/anomaly_detection.py:9 | the population variance is never negative |
| AnomalyDetection.IndicesAbove | ml-services/services/anomaly_detection.py:13-15 | every listed index is in range with a value strictly above the threshold, and the list is strictly increasing |
| AnomalyDetection.AboveIsListed | ml-services/services/anomaly_detection.py:13-15 | every index whose value exceeds the threshold is listed |
| AnomalyDetection.ListedIffAbove | ml-services/services/anomaly_detection.py:13-15 | an index is listed exactly when its value exceeds the threshold |
| AnomalyDetection.NoneAbove | ml-services/services/anomaly_detection.py:13-15 | nothing is listed when no value exceeds the threshold |
| AnomalyDetection.DetectAnomaly | ml-services/services/anomaly_detection.py:6-22 | fewer than two columns raises; an empty column gives NaN mean and threshold and no indices; otherwise threshold = mean + 2·std and the indices are exactly those above it, ascending, as IndicesAbove lists them; detected iff any index |
| AnomalyDetection.CountAboveIsLength | ml-services/services/anomaly_detection.py:15 | the number of listed indices is the number of values above the threshold |
| AnomalyDetection.SquareGrows | ml-services/services/anomaly_detection.py:13 | a larger deviation has a larger square |
| AnomalyDetection.BoundStep | ml-services/services/anomaly_detection.py:13-15 | one more value keeps the bound "counted values account for more than count·(t−m)²" |
| AnomalyDetection.DeviationLowerBound | ml-services/services/anomaly_detection.py:8-15 | values above t contribute more than their number times (t − m)² to the squared deviations |
| AnomalyDetection.QuarterBound | ml-services/services/anomaly_detection.py:9-11 | the counted values' share of n·variance forces 4·count < n |
| AnomalyDetection.TwoSigmaBound | ml-services/services/anomaly_detection.py:11 | with t two standard deviations above the mean, 4·count < n |
| AnomalyDetection.FewerThanAQuarterFlagged | ml-services/services/anomaly_detection.py:8-15 | fewer than a quarter of the rows are ever flagged (Chebyshev) |
| AnomalyDetection.SumOfConstant | ml-services/services/anomaly_detection.py:8 | the sum of n equal values c is n·c |
| AnomalyDetection.EqualValuesNoneFlagged | ml-services/services/anomaly_detection.py:8-15 | when all values are equal, the mean is that value and no index is flagged |
| Forecasting.SumXStep | ml-services/services/forecasting.py:11 | the closed-form Σx and Σx² grow by x and x² when the point x is added |
| Forecasting.DeterminantClosedForm | ml-services/services/forecasting.py:11 | 12·(N·Σx² − (Σx)²) = N²(N−1)(N+1) |
| Forecasting.DeterminantPositive | ml-services/services/forecasting.py:11 | from two points on the normal equations are regular |
| Forecasting.DeterminantOfOnePoint | ml-services/services/forecasting.py:11 | a single point leaves them singular |
| Forecasting.MaxOf | ml-services/services/forecasting.py:17 | `max` returns an element that is at least every element |
| Forecasting.PredictFutureDemand | ml-services/services/forecasting.py:8-25 | a history of fewer than two points raises; otherwise the peak is the largest of the four predictions; UPWARD iff slope > 0; HIGH iff slope < 0.2; load shifting iff slope > 0.3 |
| Forecasting.MaxOfPredictions | ml-services/services/forecasting.py:15-17 | the largest prediction is last + 4·slope for slope ≥ 0, else last + slope |
| Forecasting.PeakClosedForm | ml-services/services/forecasting.py:15-17 | the peak before rounding is last + 4·slope for slope ≥ 0, else last + slope |
| Forecasting.RecommendationImpliesUpwardMedium | ml-services/services/forecasting.py:18-25 | recommending load shifting implies UPWARD and MEDIUM |
| Forecasting.SumYOfLine | ml-services/services/forecasting.py:11 | Σy of a line a + b·i is N·a + b·Σx |
| Forecasting.SumXYOfLine | ml-services/services/forecasting.py:11 | Σxy of a line a + b·i is a·Σx + b·Σx² |
| Forecasting.SlopeOfLineSums | ml-services/services/forecasting.py:11 | regular normal equations of line sums solve to the line's slope |
| Forecasting.SlopeFromLineSums | ml-services/services/forecasting.py:11 | a history whose sums are those of a line has that line's slope |
| Forecasting.LinearHistorySlope | ml-services/services/forecasting.py:11 | a history exactly on a + b·i is fitted with slope b |
| Forecasting.ConstantHistorySlope | ml-services/services/forecasting.py:11 | a constant history of at least two points has slope 0 |
| Forecasting.ConstantHistoryForecast | ml-services/services/forecasting.py:8-25 | a constant history of at least two points is forecast STABLE, HIGH, no action, with the peak at its value |

## Left out

- The database and the external services are not modelled. This covers Supabase queries and
  their errors, the escrow service calls (their replies are parameters) and the machine-learning
  HTTP calls. A failure between the escrow calls in the middle of a milestone sync is not
  modelled either.
- `getContractors`, `getAllReports` and `getLedger` only pass a query's rows through, so they are
  not modelled.
- OpenCV and YOLO are not modelled: grey conversion, morphological closing, contour finding and
  contour area, and the detector itself. The detectors start from the contour areas or the box
  corners.
- Floating point is modelled as exact real arithmetic. This covers `round(…, 2)`,
  `round(…, 3)`, `toFixed`, the binary rounding of sums and quotients, and NumPy's numerical
  least-squares solver. The slope is the exact closed-form least-squares slope.
- Forecasting.PredictFutureDemand: a one-point history is an error. Were NumPy to return a NaN
  slope instead of raising, the service would answer STABLE and HIGH with a NaN peak. That
  answer is not modelled.
- JsSemantics.IntToString: integers of magnitude 10^21 and above are written in plain decimal
  digits. JavaScript switches to exponent notation there. Risk scores and counts never come
  near that size.
- AnomalyDetection.DetectAnomaly: the standard deviation is a parameter whose square is the
  variance, because Dafny's reals have no square root.
- Alert reasons and toast messages beyond the "Route calculated" notice are not modelled,
  because they are display text.
- Clocks are not modelled: `new Date()`, the hour of a timestamp, and today's date are
  parameters or fields.
- The avoid polygon's corner coordinates are not modelled because they are trigonometry. Each
  zone keeps its centre and radius.
- The map's jitter offsets (sin and cos of the seed) are not modelled. Each position keeps its
  seed.
- React rendering, loading flags, CSS classes and polling are not modelled. The array sort is
  modelled by a sort with the same ordering; the stability of `Array.prototype.sort` (which
  order equal severities keep) is not.
- AdminView.HeaderFigures: a RESOLVED report whose `created_at` is null makes `startsWith` throw
  in the source. The model treats it as the empty string.
- AdminView.ToHazard: risk scores are integers. For a fractional score, `parseInt` would drop the
  fraction.
- A milestones column that is not an array is modelled as absent (`None`), as for null.
- `ml-services/main.py` routing is not modelled, nor the backend's `mlService` adaptation of the
  scores.
- ResourceOptimization.AlertsAt: `waterDeviation` is computed but never used, so it is not
  modelled. WaterHistoryIrrelevant states that it has no effect.
- The simulated time series of `resourceSimulator` is not modelled. The engine takes any series.
