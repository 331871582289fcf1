# CarbonSense: a verified model

CarbonSense ingests sub-meter readings of buildings, grades their quality, looks for anomalies, fires domain
rules, assembles features for two ensemble models, runs their lifecycle, and proposes energy-saving scenarios.
This project models the parts of that platform whose correctness is decided by its own code, and proves
properties of them for every input, every run or every reachable state. `dafny verify dfyconfig.toml` checks it.

Floats are reals, UUIDs are natural numbers of which only equality matters, timestamps are integers.
Code that works step by step is a method or a class over mutable fields and is proved against a specification
function; the promises of the platform are then proved about those specifications.

| file | subject |
|---|---|
| `DeletionCascade.dfy` | building and tenant deletion over the tables of migrations 0001 to 0003, as a transaction |
| `ModelLifecycle.dfy` | promotion gate, audit log, champion alias, approval and rollback as a transition system |
| `ResidualScores.dfy`, `ScoreSymmetries.dfy` | robust z-scores with their fallbacks; their midpoint, reflection, shift and unit laws |
| `StlWindow.dfy`, `StlMeaning.dfy` | cohort split, decomposition and scatter; what each result and each error stands for |
| `RollingGuard.dfy`, `GapScan.dfy`, `Normalization.dfy` | the outlier guard, the hourly gap scan, and their merge per batch |
| `StuckAtValue.dfy`, `Dropout.dfy` | sensor faults |
| `QualityGate.dfy` | issues applied in place, batch classification, publish or alert |
| `EnsembleServing.dfy` | batched row scores and windowed scores aligned back to the rows |
| `RateLimiter.dfy` | the fixed-window limiter |
| `RuleConditions.dfy`, `RuleMeaning.dfy` | the rule condition language against Python's semantics; what each construct means |
| `FeaturePipeline.dfy`, `FeatureMeaning.dfy` | firings and residuals as feature columns; what each column shows |
| `Rounding.dfy`, `OptimizationModels.dfy`, `Bounds.dfy`, `Tariff.dfy`, `Scenarios.dfy`, `ScenarioMeaning.dfy`, `OptimizationService.dfy` | scenarios, plausibility bounds, incidents and portfolio rollups |
| `Runs.dfy`, `Sorting.dfy`, `Statistics.dfy`, `IngestionModels.dfy`, `Wrappers.dfy` | shared definitions |

Main results:

* Building deletion completes exactly on deletable buildings, keeps every foreign key after every statement and
  changes no row it leaves; tenant deletion completes exactly when each building is deletable in its turn and
  nothing refers to the tenant at the end, so on a scoped tenant for every cursor order. What survives is stated
  row by row: labels of another tenant are lost exactly when they hang on a finding that is deleted, and findings
  of the tenant stay exactly when they name no building of it. The audit trail reports, table by table, exactly the
  rows that are gone.
* Replaying the audit log always yields the champion; training promotes exactly a registered candidate within the
  sample and rate limits of a key with N promotions on record, and nothing on its own before N reviewed ones;
  rollbacks between promotions are bounded by the older versions, and land on promoted versions
  exactly when all older versions were promoted.
* At most half of a cohort is flagged exactly when 1.4826 t >= 1; some distance exposes every outlier beyond it
  exactly when cohorts with a zero median absolute deviation are excluded or the threshold is 0; scores are odd, and
  ignore shifts and, where the floor is not in force, the unit; the rolling guard can flag anything exactly when
  (w-1)^2 > w t^2.
* Whatever the whitelist accepts evaluates without an internal fault and, with and/or in boolean positions,
  isoweekday called without arguments and no dot on a dictionary, as Python would; a chain of numeric comparisons is
  true exactly when each link holds between its neighbours.
* A feature column is 1 exactly where its rule fired, and a row's STL columns are those of the last residual of its
  circuit and instant, or the defaults.
* The percentage check accepts every truthful scenario of a rounded baseline exactly when that baseline is 0 or
  at least 1.00 kWh; trustworthy figures with a plausible true reduction are accepted exactly when the ends of the
  configured range survive rounding; a portfolio reports exactly the models that generated a scenario, each summed
  over exactly its scenarios, and its reduction lies between those of its contributors.

Where code and documentation differ, the model follows the code:

* `compute_residual_zscores` is documented to return zeros when the median absolute deviation is 0
  (services/stl_detection/decomposition.py:191-192); the code first falls back to the mean absolute deviation,
  and the scores are all zero exactly when all residuals are equal. The module's header says that a large residual
  cannot mask others (services/stl_detection/decomposition.py:24-27); with that fallback it can (`MaskedByOneSpike`).
* The rollback target is described through retained promoted versions (models/registry/mlflow_registry.py:117-121);
  the code takes the next older registered version, promoted or not (`RollbackTargetMayBeUnpromoted`).
* The evaluator's documentation lists four arithmetic operators (services/rules_engine/evaluator.py:16); the code
  also accepts modulo, power, floor division, tuples, lists and `isoweekday` calls.
* The load-shift comment states that the off-peak rate is below the peak rate
  (services/optimization/scenarios/load_shift.py:86-87); a declared tariff can have it otherwise, and then the
  scenario shifts nothing.

## Model

| member | source | states |
|---|---|---|
| DeletionCascade.NoLeafMeansCycle | database/migrations/versions/0003_retention_and_deletion.py:106-118 | A finite non-empty set of circuits in which each one is some member's parent contains a circuit that is its own ancestor: the reason the peeling loop cannot stop early on an acyclic building. |
| DeletionCascade.Pigeonhole | database/migrations/versions/0003_retention_and_deletion.py:106-118 | A sequence longer than the set it draws from repeats a value; the counting step behind the leaf argument. |
| DeletionCascade.CyclePredecessor | database/migrations/versions/0003_retention_and_deletion.py:106-115 | A circuit on a cycle is the parent of another circuit on the cycle, so no round of the loop deletes it. |
| DeletionCascade.Database.DeleteBuildingData | database/migrations/versions/0003_retention_and_deletion.py:46-139 | From any foreign-key-consistent state: the call completes if and only if the building is deletable (exists for the tenant, nothing outside its doomed rows refers to it, no circuit of it is its own ancestor); it then leaves exactly the purged state, and the audit log has grown by two entries that carry the building's name, the second reporting for labels, findings, readings and calendar rows exactly how many the table has lost. Otherwise it raises and leaves every table as it was; all foreign keys hold either way. |
| DeletionCascade.Database.DeleteDependents | database/migrations/versions/0003_retention_and_deletion.py:58-102 | The first audit entry and the first four DELETEs; each count returned for the closing entry is the number of rows its own table has lost. |
| DeletionCascade.ClearingKeepsKeys | database/migrations/versions/0003_retention_and_deletion.py:73-102 | Each of the first four DELETEs leaves every foreign key of migration 0001 intact, in the order the function runs them. |
| DeletionCascade.Database.PeelCircuits | database/migrations/versions/0003_retention_and_deletion.py:104-118 | The loop terminates; every round removes only circuits of the building that are not on a cycle, keeps all foreign keys, and stops with no leaf left or because a row outside the building refers to a leaf. |
| DeletionCascade.PeelingContinues | database/migrations/versions/0003_retention_and_deletion.py:106-118 | One round that passes the foreign-key check keeps the loop invariant and, if it deleted anything, leaves fewer circuits. |
| DeletionCascade.LeafDeletionFails | database/migrations/versions/0003_retention_and_deletion.py:107-115 | A round is refused only because of a row outside the building's circuits that points at one of them. |
| DeletionCascade.OutsideReferenceMeansNotDeletable | database/migrations/versions/0003_retention_and_deletion.py:107-115 | Such a row means the building was not deletable in the first place. |
| DeletionCascade.LeftoverMeansNotDeletable | database/migrations/versions/0003_retention_and_deletion.py:120-123 | If the final DELETE on buildings is refused, the state had a row that deletability excludes. |
| DeletionCascade.EmptyMeansDeletable | database/migrations/versions/0003_retention_and_deletion.py:120-123 | If the final DELETE goes through, the building was deletable: the other half of the equivalence. |
| DeletionCascade.PurgedIsExact | database/migrations/versions/0003_retention_and_deletion.py:73-139 | Row by row, what a completed deletion leaves: every table's rows off the building, findings of other tenants that name it included, and exactly the labels whose finding stays; survivors are unchanged and the audit log is only appended to. |
| DeletionCascade.PurgedReportsLoss | database/migrations/versions/0003_retention_and_deletion.py:62-139 | The closing entry counts, table by table, the rows that are gone: before minus after, under the name the building had. |
| DeletionCascade.ForeignLabelsExactly | database/migrations/versions/0003_retention_and_deletion.py:73-87 | No label of another tenant is lost with a building iff the findings deleted with it carry labels of its own tenant only: labels go by finding id, whoever owns them. |
| DeletionCascade.NamedFindingsExactly | database/migrations/versions/0003_retention_and_deletion.py:82-87 | No finding naming the building is left iff every such finding was its tenant's. |
| DeletionCascade.PurgedKeepsKeys | database/migrations/versions/0001_canonical_schema.py:44-148 | The state after a completed deletion satisfies every foreign key. |
| DeletionCascade.Database.DeleteTenantData | database/migrations/versions/0003_retention_and_deletion.py:153-196 | Raises for an unknown tenant; for a known one and the order the cursor returns its buildings in, completes if and only if each building is deletable when its turn comes and no row refers to the tenant after the last; a tenant whose rows agree on tenant_id, whose parents stay inside a building and whose circuit trees are acyclic completes in every order; a completed call has reported every row it deleted; a call that does not complete changes nothing. |
| DeletionCascade.Database.DeleteTenantRow | database/migrations/versions/0003_retention_and_deletion.py:182-196 | Goes through if and only if no row refers to the tenant any more; then exactly that row is gone and the closing entry is written with it, otherwise nothing changes. |
| DeletionCascade.TenantPurgedReportsLoss | database/migrations/versions/0003_retention_and_deletion.py:162-196 | The trail of a tenant deletion: opened and closed with the tenant's name, between them a pair of entries per building in order, and the counts over all closing entries add up to exactly the rows every table has lost. |
| DeletionCascade.ScopedMeansDeletable | database/migrations/versions/0003_retention_and_deletion.py:174-180 | In a scoped tenant every building is deletable. |
| DeletionCascade.ScopedAfterPurge | database/migrations/versions/0003_retention_and_deletion.py:174-180 | Deleting one building keeps the tenant scoped, so the cursor loop can go on. |
| DeletionCascade.ScopedThroughout | database/migrations/versions/0003_retention_and_deletion.py:174-180 | After any duplicate-free list of the tenant's buildings has been deleted, foreign keys hold and the tenant is still scoped. |
| DeletionCascade.PurgedAllRows | database/migrations/versions/0003_retention_and_deletion.py:174-180 | After the building deletions exactly the rows hanging off none of those buildings are left, each unchanged, and the audit log has grown by one plus two entries per building. |
| DeletionCascade.TenantPurgedIsExact | database/migrations/versions/0003_retention_and_deletion.py:153-196 | A completed deletion of a scoped tenant leaves no tenant, building, circuit, reading or calendar row of it and every such row of every other tenant; the findings that go are exactly the tenant's own on its buildings, the labels exactly those hanging on them; survivors are unchanged. |
| DeletionCascade.TenantFindingsExactly | database/migrations/versions/0003_retention_and_deletion.py:153-196 | In every completed order, no finding of the tenant is left iff every one of them named a building of the tenant. |
| DeletionCascade.TenantForeignLabelsExactly | database/migrations/versions/0003_retention_and_deletion.py:153-196 | No label of another tenant is lost iff the tenant's deleted findings carry labels of the tenant only. |
| ModelLifecycle.Platform.Evaluate | models/evaluation/promotion_gate.py:73-142 | Every branch of the gate writes exactly one audit entry; approved iff a version was registered, the samples reach the minimum, no recorded rate lies above the ceiling and at least N promotions of the key are in the log; held for review iff only the last of these fails. |
| ModelLifecycle.Platform.TrainCandidate | pipelines/training/train_and_evaluate.py:128-159 | Registration, the gate, and the alias for an approved candidate: one Train transition of the state machine, which ends in an automatic promotion iff those four conditions hold. |
| ModelLifecycle.Platform.TrainAndEvaluate | pipelines/training/train_and_evaluate.py:78-125 | Fewer than two usable rows change nothing; otherwise both ensemble members go through in order as two transitions. |
| ModelLifecycle.Platform.CheckAndRollback | models/evaluation/rollback.py:68-137 | The monitor performs the rollback transition: the alias moves exactly when enough findings were reviewed, the share of dismissed ones exceeds the ceiling and an older version is registered, and a failed attempt is logged exactly when only the older version is missing; the assertion on the rate fails exactly when there are no labels and the minimum sample size is not positive. |
| ModelLifecycle.TrainPromotesExactly | models/evaluation/promotion_gate.py:73-142 | An enabled training moves its key's alias to the candidate and logs an automatic promotion iff a version was registered, the samples reach the minimum, no recorded rate lies above the ceiling and the log holds N promotions of the key; otherwise the alias stays and a rejection is logged, marked for review iff the candidate was otherwise sound. |
| ModelLifecycle.RunPromotesSoundly | models/evaluation/promotion_gate.py:80-119 | In every run from the empty world, each automatic promotion in the log was written by a training step of that key and version whose candidate was within the sample and rate limits. |
| ModelLifecycle.RollbackExactly | models/evaluation/rollback.py:72-137 | A check changes nothing unless enough findings were reviewed and too large a share was dismissed; then it moves the alias to the greatest registered version below the champion and logs both, or, with none, logs the failure and leaves the alias. |
| ModelLifecycle.PreviousIsGreatestBelow | models/registry/mlflow_registry.py:114-132 | The rollback target is the greatest registered version strictly below the champion, and there is none exactly when no registered version is older. |
| ModelLifecycle.StepLogs | models/registry/audit.py:26-45 | A transition appends at most one entry, about its own key. |
| ModelLifecycle.StepIsLocal | models/registry/audit.py:57-76 | A transition on one (tenant, building, model type) changes no alias, version list, replay or promotion count of another; the log only grows. |
| ModelLifecycle.RunConsistent | pipelines/training/train_and_evaluate.py:135-141 | In every run from the empty world, replaying the log yields exactly the champion of every key, and the champion is a registered version. |
| ModelLifecycle.RunReviewed | models/evaluation/promotion_gate.py:103-118 | In every run from the empty world, before each automatic promotion the log holds at least N promotions of that key made by somebody other than the gate. |
| ModelLifecycle.PromotionsIncludeApprovals | models/registry/audit.py:57-76 | With at least N promotions on record, at least N of them (or all of them) were external approvals. |
| ModelLifecycle.RollbacksUseUpOlder | models/evaluation/rollback.py:91-134 | Between promotions, rollbacks performed plus registered versions still below the champion is constant, so consecutive rollbacks stop within the number of older versions. |
| ModelLifecycle.OlderVersionsLeft | models/registry/mlflow_registry.py:114-132 | A rollback has somewhere to go iff at least one registered version is older than the champion: the quantity the previous row counts down. |
| ModelLifecycle.RollbackTargetMayBeUnpromoted | models/registry/mlflow_registry.py:117-132 | A run from the empty world under the default settings, with two candidates held for review, version 2 approved and one exceeded check, after which version 1 is champion without ever having been promoted. |
| ModelLifecycle.RollbacksLandOnPromotedExactly | models/registry/mlflow_registry.py:114-132 | However many rollbacks follow one another, each lands on a promoted version iff every registered version below the champion they start from was promoted. |
| ModelLifecycle.TargetsAreOlder | models/registry/mlflow_registry.py:114-132 | Each target of such a walk is a registered version below the champion it started from. |
| ModelLifecycle.EveryOlderIsATarget | models/registry/mlflow_registry.py:114-132 | And every registered version below that champion is the target of some rollback of the walk. |
| ResidualScores.MedianSplits | services/stl_detection/decomposition.py:207-208 | At most half of any sample lies strictly above its median and at most half strictly below. |
| ScoreSymmetries.MedianIsMidpoint | services/stl_detection/decomposition.py:207-208 | For an even sample the median is the midpoint of two members with at least half of the sample at or below the lower, at least half at or above the upper, and none strictly between. |
| ScoreSymmetries.MedianIsMember | services/stl_detection/decomposition.py:207-208 | For an odd sample the median is one of its members. |
| ResidualScores.SpreadAtLeastMad | services/stl_detection/decomposition.py:207-216 | Through the fallback to the mean deviation and the all-zero path, the spread used is never below the median absolute deviation. |
| ResidualScores.AtMostHalfFlagged | services/stl_detection/decomposition.py:204-244 | For every residual array and threshold t with 1.4826 t >= 1, at most half of the cohort is flagged, scale floor included. |
| ResidualScores.HalfBoundFails | services/stl_detection/decomposition.py:204-244 | Below that threshold the array [-1, 0, 1] has two of three residuals flagged. |
| ResidualScores.HalfBoundExact | services/stl_detection/decomposition.py:204-244 | The half bound holds for all arrays if and only if 1.4826 t >= 1. |
| ResidualScores.MaskingResistance | services/stl_detection/decomposition.py:178-189 | If more than half of the residuals lie within d of a centre and the median absolute deviation is positive, every residual further away than d plus the threshold times the scale of 2d is flagged, however extreme the others are. |
| ResidualScores.SpreadResistance | services/stl_detection/decomposition.py:204-223 | The same with the fallback included: it is enough that the spread in use is positive and at most 2d. |
| ResidualScores.MaskedByOneSpike | services/stl_detection/decomposition.py:207-216 | With a zero median absolute deviation it fails: in [0, 0, 0, 10, 1000] the 1000 hides the 10 at threshold 3. |
| ResidualScores.NoReachOnZeroMad | services/stl_detection/decomposition.py:210-213 | No finite distance helps: for every positive threshold, every d and every reach some array with a zero median absolute deviation hides a residual beyond it. |
| ResidualScores.ReachExistsExactly | services/stl_detection/decomposition.py:204-223 | Some reach makes every residual beyond it stand out of every majority iff arrays with a zero median absolute deviation are excluded or the threshold is 0. |
| ResidualScores.ZerosExactly | services/stl_detection/decomposition.py:204-223 | All scores are zero iff all residuals are equal, not whenever the median absolute deviation is 0. |
| ScoreSymmetries.ScoresReflect | services/stl_detection/decomposition.py:204-223 | Negating every residual negates every score. |
| ScoreSymmetries.ScoresIgnoreShift | services/stl_detection/decomposition.py:204-223 | Adding a constant to every residual changes no score. |
| ScoreSymmetries.ScoresIgnoreUnitExactly | services/stl_detection/decomposition.py:210-223 | Changing the unit of the residuals leaves all scores as they were iff all residuals are equal, the factor is 1, or the scale floor is in force in neither unit. |
| ScoreSymmetries.ScoresReconstruct | services/stl_detection/decomposition.py:204-223 | Each residual is the median plus its score times the scale, sign included. |
| ScoreSymmetries.EvenCohort | services/stl_detection/decomposition.py:226-244 | In [0, 0, 0, 2, 2, 6] at threshold 3 exactly the 6 is flagged: an even cohort whose centre is no member. |
| RollingGuard.RollingZscoreGuard | services/ingestion/normalization.py:162-206 | The guard's issues and statuses are exactly those of the flagged positions; a series shorter than the window yields nothing. |
| RollingGuard.CollectOutliers | services/ingestion/normalization.py:185-204 | The loop over the outlier column writes one issue and one degraded hour per flagged position. |
| RollingGuard.Samuelson | services/ingestion/normalization.py:174-180 | For any window of m values the squared deviation of the current value is at most (m-1)^2/m sample variances. |
| RollingGuard.ZscoreSquaredBound | services/ingestion/normalization.py:179-183 | Hence the squared z-score of the current value never exceeds (m-1)^2/m. |
| RollingGuard.FlaggedNeedsRoom | services/ingestion/normalization.py:171-183 | A position can be flagged only if (w-1)^2 > w t^2 (or the threshold is negative). |
| RollingGuard.GuardCanFlag | services/ingestion/normalization.py:171-183 | Some series is flagged somewhere if and only if that inequality holds, so it describes exactly the inert configurations. |
| RollingGuard.SpikeFlagged | services/ingestion/normalization.py:179-183 | Zeros followed by one spike attain the bound and are flagged whenever the window has room. |
| RollingGuard.OnlyWindowMatters | services/ingestion/normalization.py:162-183 | Once a full window stands before a position its verdict depends on that window alone, whatever precedes or follows; a series shorter than the window has none. |
| RollingGuard.InertUpToTen | services/ingestion/normalization.py:162-183 | With a window of ten rows or fewer and threshold 3.0 no position of any series is ever flagged. |
| RollingGuard.FlaggedStampsAre | services/ingestion/normalization.py:185-204 | An hour is degraded exactly when a flagged position carries it, and exactly then it has its issue. |
| RollingGuard.HasScoreMeans | services/ingestion/normalization.py:171-183 | A z-score exists iff at least two values and half a window, rounded down, stand there and are not all equal. |
| Runs.RunsAreExactlyTheMaximal | services/ingestion/normalization.py:113-131 | The runs of a boolean sequence are exactly its maximal blocks: none missed, none invented. |
| Runs.MarkedIffCovered | services/ingestion/normalization.py:113-131 | A position is marked exactly when some run covers it. |
| GapScan.ScanGaps | services/ingestion/normalization.py:113-131 | The in-gap flag loop returns exactly the ordered, separated maximal runs of missing hours. |
| GapScan.ClassifyGaps | services/ingestion/normalization.py:133-155 | Issues and quarantined hours of the gaps beyond the limit, and of no other gap. |
| GapScan.ResampleCircuit | services/ingestion/normalization.py:100-159 | Hourly sums over the left-inclusive index, then scan and classification. |
| GapScan.QuarantinedIff | services/ingestion/normalization.py:133-142 | An hour is quarantined by the gap logic if and only if it lies in a maximal run of missing hours longer than the limit. |
| GapScan.GapIssuesAre | services/ingestion/normalization.py:143-155 | Exactly the over-long gaps have an issue, one each. |
| GapScan.TooLongMeans | services/ingestion/normalization.py:133-135 | A gap is too long iff the limit lies below sixty minutes for each of its missing hours. |
| GapScan.GapIssueMeans | services/ingestion/normalization.py:143-155 | A gap's issue starts at its first missing hour and ends one hour after its last. |
| GapScan.EnergyConserved | services/ingestion/normalization.py:104-109 | The hourly sums keep all energy except what was read exactly on the closing hour; nothing is lost if and only if that amount is zero. |
| GapScan.OnTheHourIsLost | services/ingestion/normalization.py:104-109 | A single reading of 5 kWh taken on the hour disappears, because the index is empty. |
| Normalization.MergeStatuses | services/ingestion/normalization.py:285-309 | The loop over the hours creates one reading per hour with the worse of its gap and outlier status. |
| Normalization.RowStatusMeans | services/ingestion/normalization.py:270-297 | A row is quarantined iff its hour lies in an over-long gap, otherwise degraded iff the guard flags the value at its hour, otherwise pass. |
| Normalization.SeriesMeans | services/ingestion/normalization.py:277-282 | The outlier guard sees exactly the present hours, each under its own instant. |
| Normalization.CircuitIssuesExactly | services/ingestion/normalization.py:270-283 | A circuit's issues are one per over-long maximal gap and one per instant whose value the guard flags. |
| Normalization.NormalizeCircuit | services/ingestion/normalization.py:267-309 | One circuit end to end: its rows, its issues in order, and the count of present hours. |
| Normalization.NormalizeBatch | services/ingestion/normalization.py:247-329 | The loop over meter groups, including unmapped meters and the two interpolation counters; the ratio issue is raised iff the counted hours exceed the configured share of the present ones, and then every pass becomes degraded and no other status changes. |
| Normalization.Soften | services/ingestion/normalization.py:314-316 | In place, every passing reading becomes degraded and no other status changes. |
| Normalization.PresentAtMostReadings | services/ingestion/normalization.py:268-275 | No more hours are present than there are readings. |
| Normalization.TotalIsPresentRows | services/ingestion/normalization.py:273-275 | The total counter is the number of the batch's rows that carry a value. |
| Normalization.HighRatioMeans | services/ingestion/normalization.py:311-313 | The ratio test fires iff some hour is present and the interpolated hours exceed the limit's share of the present ones. |
| Normalization.InterpolationUndercounted | services/ingestion/normalization.py:273-275 | The interpolation counter never exceeds the hours actually filled. |
| Normalization.InterpolationExactly | services/ingestion/normalization.py:268-275 | It equals them iff in every mapped group filling added nothing or each reading made an hour of its own present. |
| StuckAtValue.DetectStuckAtValue | services/ingestion/sensor_fault.py:13-66 | The window loop reports exactly the long-enough blocks of consecutive stuck windows, with the severity the circuit type calls for. |
| StuckAtValue.MaybeAddStuckIssue | services/ingestion/sensor_fault.py:69-98 | A block is reported exactly if its time span reaches the duration threshold. |
| StuckAtValue.ReportedExactly | services/ingestion/sensor_fault.py:30-98 | An issue is reported if and only if it is the report of a maximal block of windows with variance at most v whose span reaches the threshold. |
| StuckAtValue.StuckReadingsAreClose | services/ingestion/sensor_fault.py:30-64 | Any two readings of one stuck window of w values satisfy (x-y)^2 <= 2 w v. |
| StuckAtValue.ZeroLimitExactly | services/ingestion/sensor_fault.py:36-64 | With a variance limit of 0 exactly the windows whose values are all equal are stuck. |
| Dropout.DetectDropout | services/ingestion/sensor_fault.py:101-137 | The loop over neighbouring sorted timestamps. |
| Dropout.DropoutExactly | services/ingestion/sensor_fault.py:107-137 | Whatever the arrival order, an issue (a, b) is reported iff a and b are reports with nothing in between and their distance exceeds the tolerance. |
| Dropout.DropoutMeans | services/ingestion/sensor_fault.py:101-137 | A report of a silence from a to b is among the issues iff a and b are neighbouring reports further apart than the tolerance of their source, in minutes. |
| QualityGate.ApplyIssues | services/ingestion/quality_gate.py:120-146 | After the nested in-place loop every reading's status is its old status with all affecting severities applied. |
| QualityGate.WorseStatusIsJoin | services/ingestion/models.py:8-14 | worse_status is commutative, associative, idempotent and the least upper bound of its arguments. |
| QualityGate.AppliedIsLeast | services/ingestion/quality_gate.py:120-146 | The resulting status is the least one above the initial status and every affecting severity. |
| QualityGate.AppliedOrderFree | services/ingestion/quality_gate.py:120-130 | Order and repetition of the issues do not matter. |
| QualityGate.OnlyOwnIssuesCount | services/ingestion/quality_gate.py:133-146 | An issue of another circuit, or of a stretch of its own circuit that does not cover the instant, has no effect; every other one makes the status at least its severity, and a status that changed is the severity of one of those. |
| QualityGate.CheckBounds | services/ingestion/bounds_and_drift.py:25-46 | One quarantining issue for each reading with a value outside its circuit's bounds, and no other. |
| QualityGate.PlausibleMeans | services/ingestion/bounds_and_drift.py:29-32 | A reading is implausible iff it has a value strictly outside the bounds of its circuit's declared type, of type "unknown" without one, or the default bounds where the type has none. |
| QualityGate.CheckSchemaDrift | services/ingestion/bounds_and_drift.py:71-110 | At most one batch-wide issue; none iff the schema is undeclared or matched; quarantining iff an expected required column is absent. |
| QualityGate.CountsPartition | services/ingestion/quality_gate.py:102-104 | The three counts add up to the number of readings. |
| QualityGate.BatchStatusFromCounts | services/ingestion/quality_gate.py:149-159 | The batch is quarantined iff all readings are, and pass iff it is non-empty and all readings pass. |
| QualityGate.DetectedQuarantines | services/ingestion/quality_gate.py:87-98 | A reading outside its bounds, or any reading of a batch that lacks a required column, ends up quarantined. |
| QualityGate.ProcessBatch | services/ingestion/quality_gate.py:71-117 | Detect, apply, classify and count: every non-quarantined reading has no value or a value within its bounds, each count is the number of positions with that final status, and the batch is quarantined iff all are, and pass iff it is not empty and all are. |
| QualityGate.EventPublisher.PublishOrAlert | services/ingestion/event_publisher.py:59-100 | Publishes iff the batch is not quarantined; otherwise one alert with its counts; a drift alert on the side of a published batch; the store sees an alert iff it exists. |
| QualityGate.EventPublisher.Ingest | services/ingestion/event_publisher.py:63-100 | Gate and publisher together: an event goes out iff some reading is not quarantined after all issues were applied, and none does for a batch that lacks a required column. |
| StlWindow.JoinCalendar | services/stl_detection/service.py:155-164 | Every reading gets the day type of its date; the error names the first date without an entry. |
| StlWindow.GroupIndices | services/stl_detection/service.py:169-171 | The per-day-type index lists are exactly the ascending positions of that type. |
| StlWindow.DecomposeCohort | services/stl_detection/service.py:272-388 | Cold start, fit, scoring and alignment by timestamp for one cohort. |
| StlWindow.DecomposeAndScatter | services/stl_detection/service.py:176-192 | Scattering the cohort results fills every slot with the result of its own reading. |
| StlWindow.AnalyseCircuitWindow | services/stl_detection/service.py:108-192 | The loops compute exactly the reading-by-reading outcome, errors included. |
| StlWindow.PermutationInvariant | services/stl_detection/service.py:149-192 | With distinct timestamps the outcome does not depend on the order of the input. |
| StlWindow.OneResultPerReading | services/stl_detection/service.py:149-192 | The results are one per reading, in ascending time, each with its calendar day type. |
| StlMeaning.ErrorsExactly | services/stl_detection/service.py:155-164 | The analysis fails on the calendar iff some reading's date has no entry, and on its values iff all dates have one and some day type of sufficient history holds no value. |
| StlMeaning.FirstUncoveredIsEarliest | services/stl_detection/service.py:156-163 | The date the calendar error names is that of the earliest uncovered reading. |
| StlMeaning.DayTypeOnMeans | services/stl_detection/service.py:142-144 | A date has the day type of its last calendar entry, and none iff no entry names it. |
| StlMeaning.ResultsMean | services/stl_detection/service.py:149-192 | A scored result carries the fitted component of the last position of its instant in the sorted cohort of its day type, and the score of that component among the cohort's residuals; it is unscored iff the cohort is short. |
| StlWindow.LowQualityExactly | services/stl_detection/decomposition.py:60-89 | A result is unscored iff its day-type cohort in the input has fewer than the minimum observations. |
| StlWindow.FilterSort | services/stl_detection/service.py:150-171 | Selecting a day type commutes with the stable sort. |
| StlWindow.CohortIndependence | services/stl_detection/service.py:178-185 | Two windows that agree on one cohort's readings give that cohort the same results, whatever else they contain. |
| StlWindow.CohortHalfFlagged | services/stl_detection/decomposition.py:226-244 | With distinct timestamps and 1.4826 t >= 1 at most half of a cohort's results are anomalous. |
| EnsembleServing.PlaceOfUsable | models/serving/ensemble_serving.py:153-155 | A usable row stands in the index list behind exactly its usable predecessors. |
| EnsembleServing.RunIsolationForest | models/serving/ensemble_serving.py:152-175 | For every positive batch size each usable row carries the score of its own row, and no other row carries one. |
| EnsembleServing.ScoreBatch | models/serving/ensemble_serving.py:160-173 | Local batch positions are written back under the right global positions. |
| EnsembleServing.BuildWindows | models/training/autoencoder.py:194-201 | One flattened slice per start position; none if there are fewer rows than the window. |
| EnsembleServing.WindowContents | models/training/autoencoder.py:198-201 | Entry j*f + k of window i is entry k of row i + j. |
| EnsembleServing.RunAutoencoder | models/serving/ensemble_serving.py:194-222 | A row carries a window score iff it is usable and has at least w-1 usable predecessors, and then the score of the window ending at it. |
| EnsembleServing.AttachWindows | models/serving/ensemble_serving.py:208-220 | The loop over windows attaches score k to the row of place k + w - 1, with the right start and end. |
| EnsembleServing.WindowScoreIsLocal | models/serving/ensemble_serving.py:201-220 | Nothing but the w usable rows of its window influences a row's reconstruction score. |
| EnsembleServing.WindowSpans | models/serving/ensemble_serving.py:208-220 | A row's window ends at the row itself and starts at the usable row with w-1 usable predecessors fewer. |
| EnsembleServing.Score | models/serving/ensemble_serving.py:90-129 | One record per row in time order, each the combination of the two independent per-row specifications under the row's own circuit, instant and quality flag; its flags follow from the scores beside them, and with a forest a row is scored iff it is usable. |
| EnsembleServing.RecordFlags | models/serving/ensemble_serving.py:105-127 | A record's forest flag is a negative decision, its window flag an error above the threshold, and the ensemble flag is set iff not both are unset. |
| EnsembleServing.LowQualityNeverFlagged | models/serving/ensemble_serving.py:105-127 | A low-quality row is never scored and never flagged. |
| RateLimiter.TenantRateLimiter.Check | apps/api/rate_limit.py:53-71 | Only the request's own key is touched; the verdict and retry time follow from that key's window, and each of the four tiers is held to its own limit, an unknown tier to the free one's. |
| RateLimiter.KeysAreIndependent | apps/api/rate_limit.py:60-67 | In any run a key's window depends on that key's request times alone. |
| RateLimiter.VerdictInRun | apps/api/rate_limit.py:57-71 | In any run a request is accepted iff fewer than limit requests of its key precede it in its window. |
| RateLimiter.WindowCounts | apps/api/rate_limit.py:63-71 | Every window accepts at most limit requests. |
| RateLimiter.AtMostTwiceTheLimit | apps/api/rate_limit.py:57-71 | With a non-decreasing clock any half-open 60-second interval accepts at most twice the limit for one key. |
| RateLimiter.TwiceTheLimitIsReached | apps/api/rate_limit.py:57-71 | A burst at 59 s and another at 60 s attain that bound. |
| RateLimiter.RetryAfterIsHonoured | apps/api/rate_limit.py:69-71 | Whatever arrives in between, a request made once the unrounded retry time has elapsed is accepted iff the limit is at least 1. |
| RuleConditions.ScheduleHasInstantExactly | services/rules_engine/evaluator.py:38-59 | A schedule dictionary contains some instant iff it is not empty, both clock times parse, the start does not lie after the end, and it lists a weekday; an overnight schedule contains none. |
| RuleMeaning.WithinMeans | services/rules_engine/evaluator.py:38-59 | within(schedule, ts) in a condition is true iff the schedule is not empty, the weekday is listed and the time of day is neither before the start nor after the end; whatever does not parse makes it false. |
| RuleMeaning.OnlyThreeEntriesMatter | services/rules_engine/evaluator.py:38-59 | Two non-empty schedules that agree on days, start and end, defaults filled in, contain the same instants. |
| RuleConditions.EvalCompare | services/rules_engine/evaluator.py:219-244 | The loop that carries the left operand along computes the recursive chain, errors included. |
| RuleConditions.AcceptedNeverFaults | services/rules_engine/evaluator.py:92-131 | No tree the whitelist accepts ever reaches a missing handler, an unknown operator or a disallowed call, in any context. |
| RuleMeaning.AcceptsExactly | services/rules_engine/evaluator.py:92-131 | A tree is accepted iff its root is of an allowed kind and every subtree is accepted. |
| RuleConditions.ValueAgrees | services/rules_engine/evaluator.py:157-253 | Where and/or join only bool-valued operands, isoweekday gets no arguments and no dot meets a dictionary, the evaluator's value or exception is exactly Python's. |
| RuleConditions.TruthAgrees | services/rules_engine/evaluator.py:187-253 | Where only truth is used, and/or may join anything and, still without a dot on a dictionary, the truth value or exception is Python's. |
| RuleMeaning.ValueSafeExactly | services/rules_engine/evaluator.py:157-253 | The condition of the two rows above, node by node: an accepted tree is safe iff its own and/or joins bool-valued operands, its own isoweekday has no arguments, and every part is safe, of which a not asks for its truth only. |
| RuleConditions.JunctionAgreesExactly | services/rules_engine/evaluator.py:187-192 | The value of an and/or agrees with Python's if and only if the operand Python stops at, where there is one, has a bool for its value. |
| RuleConditions.JunctionIsItsStop | services/rules_engine/evaluator.py:187-192 | Python's and/or has the value of the first operand that settles it, or of the last. |
| RuleConditions.OrInValuePosition | services/rules_engine/evaluator.py:187-192 | (0 or 5) > 3 is accepted, true in Python and false here. |
| RuleConditions.ChainIsPairwise | services/rules_engine/evaluator.py:219-244 | When all operands have values, a chained comparison is true iff every adjacent comparison is. |
| RuleMeaning.ComparisonLaws | services/rules_engine/evaluator.py:219-244 | For constants x and y: x < y yields true iff y - x is positive; > is < with the operands exchanged; == holds iff neither does; <=, >= and != are the negations of >, < and ==. |
| RuleMeaning.OtherComparisons | services/rules_engine/evaluator.py:219-244 | Membership tests, and comparisons with an operand that is no number, are Python's own of the operands in their order. |
| RuleMeaning.BoolsCompareAsNumbers | services/rules_engine/evaluator.py:219-244 | A bool on either side of a numeric comparison counts as 0 or 1. |
| RuleMeaning.NumericChainMeans | services/rules_engine/evaluator.py:219-244 | A chain of numeric comparisons is true iff every link holds between its two neighbours, for operands of any form. |
| RuleMeaning.AndMeans | services/rules_engine/evaluator.py:187-190 | An and is true iff all its operands are true. |
| RuleMeaning.OrMeans | services/rules_engine/evaluator.py:190-191 | An or is true iff some operand is true and none before it raises. |
| RuleMeaning.DeMorgan | services/rules_engine/evaluator.py:187-197 | The or of the negations is the negation of the and, and the other way round, exceptions included. |
| RuleMeaning.ArithmeticMeans | services/rules_engine/evaluator.py:199-217 | Arithmetic is handed its operands in order; an operand that raises ends it, the left one first. |
| RuleConditions.IsoweekdayIgnoresArguments | services/rules_engine/evaluator.py:250-252 | Arguments passed to isoweekday are accepted and ignored, where Python raises. |
| RuleConditions.AttributeAgreesExactly | services/rules_engine/evaluator.py:165-175 | On a base that agrees, an attribute agrees with Python's iff the base is no dictionary or its entry under that name is what Python finds there. |
| RuleConditions.DotOnDictionary | services/rules_engine/evaluator.py:165-172 | A dot on a dictionary is accepted and reads its entry, where Python raises. |
| RuleConditions.OnlyNamesMatter | services/rules_engine/evaluator.py:157-185 | Two contexts that agree on the names an expression looks up give the same outcome, errors included. |
| RuleConditions.HoldsIsPythonTruth | services/rules_engine/evaluator.py:288-309 | With and/or placed as above and no dot on a dictionary, a condition holds iff it parses, the whitelist accepts it and Python finds it true. |
| RuleMeaning.ThresholdMeans | services/rules_engine/evaluator.py:275-309 | The condition name op x holds iff the number the context has under that name stands in that relation to x. |
| RuleMeaning.UnknownNameNeverHolds | services/rules_engine/evaluator.py:160-163 | Without that name in the context it never holds. |
| RuleConditions.UnrelatedNamesIgnored | services/rules_engine/evaluator.py:303-309 | Adding names a condition does not mention never changes its verdict. |
| FeaturePipeline.RuleIsPythonTruth | services/rules_engine/service.py:64-126 | In the engine's own contexts, which wrap the building's dictionary, a rule whose dots stand behind plain names means what it means in Python. |
| FeaturePipeline.ProcessReadings | services/rules_engine/service.py:55-126 | The nested loops produce the findings reading by reading and rule by rule; a finding exists iff its rule applied and held for a non-quarantined reading there. |
| FeaturePipeline.FindingsExactly | services/rules_engine/service.py:64-126 | The same equivalence for the specification of the loops. |
| FeatureMeaning.ScopeMeans | services/rules_engine/service.py:34-42 | A rule without a scope applies everywhere; each further key narrows it to contexts that hold exactly that entry. |
| FeatureMeaning.ThresholdRuleFires | services/rules_engine/service.py:64-126 | A rule kwh op x for a circuit type fires on a reading with a value iff the reading is not quarantined, has an instant, its circuit is declared of that type, and the value stands in that relation to x. |
| FeaturePipeline.IndexRuleFires | pipelines/feature_engineering/batch_pipeline.py:97-104 | The nested dictionary holds exactly the findings that name a circuit. |
| FeaturePipeline.IndexStl | pipelines/feature_engineering/batch_pipeline.py:109-125 | Succeeds iff no window's analysis fails with an error other than the calendar's; the index then has an entry for a circuit and instant exactly where some analysed window has a residual, and it is the last such residual's. |
| FeaturePipeline.OneMoreResidual | pipelines/feature_engineering/batch_pipeline.py:122-125 | Writing one residual keeps the index exact: no other entry moves and its own becomes the last. |
| FeaturePipeline.Assemble | services/ml_ensemble/feature_assembly.py:115-144 | Succeeds iff every row satisfies the record's field constraints; then one row per reading in time order with its own instant's upstream fields. |
| FeaturePipeline.RowsMatchReadings | services/ml_ensemble/feature_assembly.py:121-142 | One row per reading in ascending time, each with the flags and the STL fields of its own instant. |
| FeaturePipeline.WindowAllowedExactly | models/feature_store/feature_set_v1.py:184-245 | A circuit's rows satisfy the field constraints iff each reading's statistics and the last residual of its instant do. |
| FeatureMeaning.RowValidMeans | models/feature_store/feature_set_v1.py:184-245 | A row is refused iff a ratio or the magnitude is negative, or the peak share exceeds one. |
| FeaturePipeline.RuleColumn | models/feature_store/feature_set_v1.py:310-339 | With duplicate-free rule ids the column named rule_fire_r exists once, sits behind the seven base columns, and is 1 iff the row's flag is set. |
| FeatureMeaning.BaseColumns | models/feature_store/feature_set_v1.py:310-339 | Each of the six numeric base columns stands under its own name and shows its own field, an absent one as 0. |
| FeatureMeaning.DayTypeColumn | models/feature_store/feature_set_v1.py:310-320 | The seventh column is 1 for a weekend, 2 for a holiday, 3 for a declared closure and 0 for anything else. |
| FeatureMeaning.ColumnsDistinct | models/feature_store/feature_set_v1.py:324-339 | No two columns share a name. |
| FeaturePipeline.CollectRuleIds | services/ml_ensemble/feature_assembly.py:269-280 | The ids are exactly the keys seen in some row, duplicate-free and in string order. |
| FeatureMeaning.StringOrderMeans | services/ml_ensemble/feature_assembly.py:269-280 | One id stands before another iff it is a prefix, or smaller at the first place where they differ. |
| FeaturePipeline.ColumnOrderDetermined | services/ml_ensemble/feature_assembly.py:269-280 | The id order is a function of the set of ids, so training and serving agree on the columns. |
| FeaturePipeline.RunBatch | pipelines/feature_engineering/batch_pipeline.py:90-136 | Raises the STL error iff some window fails with an error other than the calendar's, and returns iff none does and every reading's statistics and last residual satisfy the record's constraints; then one row per normalized reading, rule r set iff r fired for a non-quarantined reading of that circuit and instant, and STL columns from the last residual there or the defaults. |
| FeaturePipeline.ColumnShowsFiring | models/feature_store/feature_set_v1.py:310-339 | End to end: the column named after a rule is 1 exactly where that rule fired and 0 elsewhere. |
| Rounding.Round2Monotone | services/optimization/scenarios/load_shift.py:112-116 | Rounding to cents is monotone. |
| Rounding.Round1Near | services/optimization/scenarios/solar_offset.py:129 | Rounding a payback to one decimal moves it by at most 0.05. |
| Rounding.RangeSurvivesRounding | services/optimization/bounds.py:80-84 | Rounding keeps every value of a range inside it iff it keeps both ends inside. |
| Rounding.Round2NonNegativeExactly | services/optimization/models.py:29-39 | A value rounds to at least 0 iff it is at least -0.005. |
| Bounds.ValidateScenario | services/optimization/bounds.py:28-104 | Exactly the violated checks, each once, in check order. |
| Bounds.FirstViolationMeans | services/optimization/bounds.py:28-104 | The violation an incident is typed by: the first in the order energy, emissions, percentage, range, payback. |
| Bounds.PctConsistentMeans | services/optimization/bounds.py:66-70 | The percentage is consistent iff nothing was consumed or it lies within one point of what the two energies imply. |
| Bounds.ConsistentFromOneOhOne | services/optimization/bounds.py:66-70 | From a rounded baseline of 1.01 kWh on, rounding never trips the percentage check of a truthful scenario. |
| Bounds.ConsistentAtOne | services/optimization/bounds.py:66-70 | Nor at exactly 1.00 kWh, where the implied percentage is whole. |
| Bounds.InconsistentBelowOne | services/optimization/bounds.py:66-70 | For every rounded baseline from 0.01 to 0.99 kWh there is a truthful scenario the check rejects. |
| Bounds.ConsistencyExactly | services/optimization/bounds.py:66-70 | The check accepts every truthful scenario of a given rounded baseline iff that baseline is 0 or at least 1.00 kWh. |
| Tariff.PeakAndOffpeakRates | services/optimization/tariff.py:16-31 | Each rate is the declared number if there is one and the default otherwise. |
| ScenarioMeaning.RatesMean | services/optimization/tariff.py:22-31 | Each rate is the numeric entry under its own key, or the default of its own kind. |
| Tariff.BlendedBetweenExactly | services/optimization/tariff.py:34-44 | The blended rate lies between the two rates iff there is no positive consumption, the rates are equal, or the peak energy is a genuine part of the total. |
| Tariff.BlendedBetween | services/optimization/tariff.py:34-44 | For non-negative readings it always does. |
| ScenarioMeaning.BlendedRateBills | services/optimization/tariff.py:34-44 | Charging all consumption at the blended rate gives the bill of peak and off-peak consumption at their own rates; without consumption the rate is the off-peak one. |
| ScenarioMeaning.EnergiesAreSums | services/optimization/tariff.py:39-40 | The total and the peak energy are the sums of the known values and of those at peak hours. |
| Scenarios.MinimiserIsAnEnd | services/optimization/scenarios/load_shift.py:84-91 | A minimiser of a non-constant linear objective is the end of the interval the slope points away from. |
| Scenarios.LoadShiftIsOptimal | services/optimization/scenarios/load_shift.py:81-91 | The shift chosen is feasible, makes the bill least over the whole interval, and never costs more than shifting nothing. |
| Scenarios.LoadShiftSavings | services/optimization/scenarios/load_shift.py:93-104 | Shifted plus remaining is the original peak energy; the savings are the price difference on the shifted energy, so the floor at zero never takes effect. |
| Scenarios.LoadShiftFollowsTariff | services/optimization/scenarios/load_shift.py:84-91 | With peak power dearer the whole allowance moves, with it cheaper nothing does. |
| Scenarios.LoadShiftJudgedOnRange | services/optimization/scenarios/load_shift.py:41-123 | For every context: the model raises iff it proposes figures whose rounding leaves the record's field ranges. For a non-negative carbon intensity and a shiftable fraction in [0, 1] it never raises and, once the rounded baseline is 0 or at least 1 kWh, passes the bounds iff its rounded percentage is in range and its payback below the ceiling; a true reduction in range is accepted when both range ends survive rounding. |
| ScenarioMeaning.LoadShiftMeans | services/optimization/scenarios/load_shift.py:41-123 | A returned load shift is, field by field, the rounded record of a cheapest shift of the first citing finding's peak energy: identity, energies, emissions, percentage with its 0.7 to 1.3 band, a year's price difference, no payback. |
| ScenarioMeaning.LoadShiftAbstains | services/optimization/scenarios/load_shift.py:41-79 | It abstains, with the matching reason, without a finding that cites a timing rule, without readings of its circuit, and without peak consumption. |
| Scenarios.SetpointMovesToCeiling | services/optimization/scenarios/setpoint_adjustment.py:72-80 | The program drives the setpoint to exactly the configured ceiling. |
| Scenarios.SetpointTruthful | services/optimization/scenarios/setpoint_adjustment.py:82-92 | The reduction is the per-degree fraction times the ceiling, capped at everything, and the figures are truthful. |
| Scenarios.SetpointJudgedOnRange | services/optimization/scenarios/setpoint_adjustment.py:37-111 | The same for setpoint adjustment: raises exactly on unrepresentable figures for every context, and with non-negative rates, readings, factor and ceiling is judged on range and payback alone. |
| ScenarioMeaning.SetpointMeans | services/optimization/scenarios/setpoint_adjustment.py:37-111 | A returned setpoint change is, field by field, the rounded record of the full change on the first finding that cites an hvac circuit. |
| ScenarioMeaning.SetpointAbstains | services/optimization/scenarios/setpoint_adjustment.py:37-70 | It abstains, with the matching reason, without such a finding, without readings and without consumption. |
| Scenarios.SolarTruthful | services/optimization/scenarios/solar_offset.py:94-111 | The offset is the smaller of generation and consumption, and the figures are truthful. |
| Scenarios.SolarPaybackScaleFree | services/optimization/scenarios/solar_offset.py:87-111 | While the roof generates no more than the building uses, the payback does not depend on its size. |
| Scenarios.SolarJudgedOnRange | services/optimization/scenarios/solar_offset.py:40-130 | The same for rooftop solar, with non-negative rates, readings and sizing assumptions. |
| ScenarioMeaning.SolarMeans | services/optimization/scenarios/solar_offset.py:83-130 | A returned solar scenario is, field by field, the rounded record of the roof's yield set against a year's consumption, with the months the saved bill takes to pay for the panels. |
| ScenarioMeaning.SolarAbstains | services/optimization/scenarios/solar_offset.py:41-81 | Its five gates in order, each with its own reason. |
| Scenarios.TruthfulPassesExactly | services/optimization/bounds.py:47-102 | A truthful scenario with such a baseline is judged on range and payback alone: rounding never makes it look like an increase in energy or emissions. |
| Scenarios.TrueReductionAccepted | services/optimization/bounds.py:80-102 | Trustworthy figures whose unrounded reduction is in range and whose payback is within the ceiling pass, given range ends that survive rounding and a rounded baseline of 0 or at least 1 kWh. |
| Scenarios.RangePromiseExactly | services/optimization/bounds.py:80-84 | That holds for all such figures iff both ends of the configured range survive rounding. |
| Scenarios.RepresentableExactly | services/optimization/models.py:29-39 | Building the record raises exactly when an unrounded figure lies more than half a unit outside its field's range. |
| Scenarios.ProposalVerdict | services/optimization/bounds.py:47-102 | The verdict the three scenario models share, for any proposal whatever. |
| Scenarios.SoundFieldsValid | services/optimization/models.py:29-39 | Figures in which nothing increases and nothing is negative always satisfy the record's field constraints after rounding. |
| StlWindow.FillGroup | services/stl_detection/service.py:178-185 | One cohort's results reach exactly the slots of its readings; no other slot changes. |
| StuckAtValue.ScanWindows | services/ingestion/sensor_fault.py:36-64 | The loop over window ends opens, extends and closes blocks, and leaves exactly the maximal ones. |
| OptimizationService.ScenarioRegistry.Register | services/optimization/registry.py:28-34 | A duplicate name is refused and leaves the catalogue as it was; otherwise the model is appended; names stay unique. |
| OptimizationService.DefaultRegistry | services/optimization/registry.py:43-55 | The production catalogue registers load_shift_v1, setpoint_adjustment_v1 and solar_offset_v1 in version 1, in this order and each with its own generator, without a clash. |
| OptimizationService.OptimizationService.EnforceBounds | services/optimization/service.py:172-204 | A passing scenario comes back unchanged and logs nothing; a failing one is replaced and leaves exactly one incident with all its violations, typed by the first. |
| OptimizationService.OptimizationService.GenerateScenarios | services/optimization/service.py:59-73 | One judged outcome per registered model in order; no returned scenario fails the bounds; the incidents added are exactly the rejections, in order, also when a model raises. |
| OptimizationService.OptimizationService.GeneratePerBuilding | services/optimization/service.py:82-84 | Succeeds iff every building generates; each building is filed under its own id with outcomes that pass; the incidents added are exactly the rejections over the buildings reached, in order, also when one raises. |
| OptimizationService.PerBuildingExactly | services/optimization/service.py:82-84 | The dictionary has one entry per building asked for, holding exactly that building's outcomes. |
| OptimizationService.OutcomesMean | services/optimization/service.py:67-73 | A model's outcome is kept as it is iff it is an abstention or within the bounds; otherwise a rejection under the scenario's own model, version and building stands in its place. |
| OptimizationService.LoggedOneMore | services/optimization/service.py:82-84 | The incidents of a list of buildings continue with those of one more: the fold the request's log follows. |
| OptimizationService.OptimizationService.RollUp | services/optimization/service.py:86-121 | The catalogue loop succeeds iff every contributing version is positive; there is then one rollup for each model that generated some scenario, in catalogue order and no other, naming the buildings of its scenarios in order and carrying the rounded sum of each figure over exactly those scenarios, none with an increase. |
| OptimizationService.OptimizationService.GeneratePortfolio | services/optimization/service.py:75-127 | Succeeds iff the list is not empty, every building generates and every contributing version is positive; then one rollup for each model that generated a scenario for some building, in catalogue order and no other, each naming the contributing buildings in order and summing each of its figures over exactly their scenarios, none raising or showing an increase in energy or emissions; either way the incidents added are exactly the rejections over the buildings reached. |
| OptimizationService.RollupIffContributed | services/optimization/service.py:86-96 | A registered model has a rollup under its name iff the returned outcomes of some building hold a scenario generated under that name. |
| OptimizationService.ListsOnlyOne | services/optimization/service.py:88-94 | There is one such list of places for a model, so what its rollup sums over is determined. |
| OptimizationService.RollupDescribes | services/optimization/service.py:88-121 | A model's rollup lists exactly the places of its scenarios, building by building, and each total, the savings and the percentage is the rounded figure of its own field over them. |
| OptimizationService.RollupNeverIncreases | services/optimization/service.py:98-121 | Rounded totals keep optimized at most baseline and the percentage within 0 to 100, so building the rollup never raises. |
| OptimizationService.RollupIsBetweenContributors | services/optimization/service.py:98-107 | The unrounded portfolio reduction lies between the least and the greatest reduction implied by a contributing scenario with positive baseline. |

## Left out

- DeletionCascade.Database.DeleteTenantData: the condition is stated for the order the cursor took; which order the database picks on an unscoped tenant is not modelled.
- DeletionCascade.Database.Rollback: aborting the transaction is modelled as restoring the saved rows; locking, concurrent sessions and row-level security are not modelled.
- Tables added by migrations after 0003 that also refer to buildings or circuits; the function does not clear them.
- ModelLifecycle.Platform.ApproveVersion: the repository has no code for the human approval, so it is an environment step that logs a promotion and moves the alias; a crash between logging and moving the alias is not modelled.
- ModelLifecycle.Platform.TrainAndEvaluate: training itself is a parameter; the registry is taken to hand out increasing versions.
- StlWindow.DecomposeCohort: the seasonal fit is a parameter over the whole cohort, values missing inside it included, and fails only on an all-missing series; the two defensive branches behind it, which its own length check and timestamps rule out, have no counterpart.
- RollingGuard.RollingZscoreGuard: window size 0 is excluded; the square root is avoided by comparing squares.
- StuckAtValue.DetectStuckAtValue: window size 0 is excluded.
- EnsembleServing.RunIsolationForest: a batch size of 0, on which the source raises, is excluded, as is a window length of 0 for the autoencoder.
- GapScan.ResampleCircuit: an empty group, which grouping never yields, is excluded.
- Normalization.NormalizeBatch: column mapping, time zones and number parsing are left out; filling short gaps is a parameter, and nothing is claimed about which gaps it fills.
- QualityGate.ProcessBatch: normalisation and the per-circuit grouping of sensor faults enter as their results; raw timestamp extraction is text parsing.
- Dropout.DropoutExactly: stated for a non-negative tolerance.
- RuleConditions.Eval: parsing, the SQL keyword rewriting, and exhaustion of the interpreter's stack are left out; arithmetic, the attributes Python finds on a value, the truth of objects and comparisons between non-numbers are parameters, and a comparison yields a bool or raises.
- RuleConditions.Within: only dictionaries are schedules; clock parsing is a parameter.
- FeaturePipeline.RunBatch: the rolling statistics and the residuals of a window are parameters; finding identifiers, evidence bundles and persistence are left out.
- RateLimiter.TenantRateLimiter.Check: the monotonic clock is a parameter.
- Scenarios.LoadShiftJudgedOnRange: the linear program is any solver that solves feasible programs and reports only minimisers.
- OptimizationService.OptimizationService.GeneratePortfolio: the context of a building is taken to be the same for the whole request.
- Rounding.Round2Near: rounding is exact half-to-even on reals; the binary representation of the rounded value is not modelled.
- HTTP routers, tokens, webhooks, message brokers, workflow engines, model storage and the language-model narration: input and output, or foreign code.
- Deduplication of workflow identifiers: it depends on a reuse policy the files do not set.
- Chronological split, feedback thresholds, confidence-band clamping, calendar import, chunked uploads, reporting and text formatting: they would only add easy members.
