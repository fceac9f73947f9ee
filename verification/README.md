# SentinelUEBA, modelled and proved in Dafny

SentinelUEBA is a local user and entity behaviour analytics pipeline. Collectors and a synthetic
generator fill an append-only event table; 15-minute feature windows per user and host are kept up
to date incrementally; a detection run evaluates pending windows with rules and a model, and groups
hits into findings; a worker holds a lease while it runs; models are trained, verified and promoted
through a registry.

This project models the parts of that pipeline whose correctness depends on whole runs, and proves
what they are for. Run `dafny verify dfyconfig.toml` here.

| files | subject |
|---|---|
| `Sequences.dfy`, `Tables.dfy` | selecting and ordering rows, as SQL and `sorted` do; units and rows that several tables share |
| `Windows.dfy`, `Materialization.dfy`, `RangeAgreement.dfy`, `StoredWindows.dfy`, `IncrementalRuns.dfy`, `LateEvents.dfy`, `RealRuns.dfy`, `FeatureMaterializer.dfy` | feature windows: the reference table of a rebuild and what it says about the rows, one incremental call, whole runs, late events, and the class that does it in place |
| `Rules.dfy`, `RuleReadings.dfy`, `Fusion.dfy`, `Decision.dfy` | rules and what they read off events, score fusion and the decision on one window |
| `Findings.dfy`, `FindingInvariants.dfy`, `Sessions.dfy`, `FindingStore.dfy` | persisting evaluations: specification, invariants of every reachable store, sessionization, and the class with the transactions |
| `Drain.dfy`, `DetectionRun.dfy`, `Pipeline.dfy` | the batched loop of a detection run, and what a run keeps from decision to stored findings |
| `WorkerLease.dfy` | the worker lease under every interleaving |
| `ModelRegistry.dfy`, `RegistryInvariants.dfy`, `ModelStore.dfy` | training runs, model lifecycle and promotion log |
| `Split.dfy`, `Calibration.dfy` | the leakage-safe split with its verifier, and the threshold quantile |
| `ProcessCollector.dfy` | process snapshots and their events |

Objects whose methods update stored rows are classes; each of their methods is proved against a
function on the tables, and the lemmas about whole runs are about that function. Expression-shaped
code (rules, fusion, split, calibration) is functions. Times are integers, in microseconds except for
leases, which count seconds. Rows get the next position of their table, or a fresh id passed in,
where the source draws a random one. Hashes are taken as injective: a fingerprint or an evaluation
key is the record it is the hash of. What lies outside the tables, such as the clock, a collector's
snapshot, whether evaluating a window raises, whether model files verify, or how training a family
went, is a parameter.

Results that go against what one might expect:

- An incremental call misses the rebuild's table exactly when some new event is too late for the
  policy and no new event within it falls into the same window (`IncrementalExact`); `TooLateMissed`
  shows a store where it does, `LateKept` one where a late event within the policy is kept.
- `docs/DATA_PIPELINE.md` promises equality for all in-policy late data. For real data that is not
  enough: a new poll may reach into a stored window after the windows of all new rows, which the call
  leaves as it is. `PollMissed` shows one. `RealIncrementalExact` says exactly when it happens: some
  new poll covers part of such a window, and its collector had not fully covered that window before.
- A detection run without a window cap never ends when a whole batch of windows raises on every
  attempt; `TerminatesExactly` gives the exact condition.
- `transition_finding` reads the status before its write transaction. Two concurrent changes can
  take a resolved finding back to acknowledged; `LateCommit` gives the exact condition.
- A heartbeat that arrives after its owner's release revives the lease.
- A training call is not one transaction. When another caller promotes one of its candidates after
  the run was finalized, giving the run up or recommending that candidate leaves a promotion log that
  leads to a model which is not champion (`PromotedMidTraining`). `GivenUpExactly` and
  `RecommendedExactly` give the conditions; in serial histories they always hold.
- The flagged rate that calibration reports can exceed the target, through a tie at the threshold or
  because the list is too short for its rate (`ReportedExactly`); the rate that the engine applies
  cannot.
- Window lengths that do not divide a day give overlapping windows at midnight.

## Model

| member | source | states |
|---|---|---|
| `Windows.TilingLengths` | backend/src/sentinelueba/features/windows.py:74-83 | windows tile the time line, any two that share a time being the same window, if and only if the window length divides the day |
| `Windows.AlignIsFloor` | backend/src/sentinelueba/features/windows.py:74-83 | for a length that divides the day, the minute arithmetic from midnight is rounding down to a multiple of the length |
| `Windows.AlignContains` | backend/src/sentinelueba/features/windows.py:74-83 | every time lies in the window it is aligned to, for every window length |
| `Windows.AlignCut` | backend/src/sentinelueba/features/windows.py:74-83 | an aligned boundary never separates a time from the start of its window, so cutting the event table at window starts loses nothing |
| `Windows.GroupEventsByProfileWindow` | backend/src/sentinelueba/features/windows.py:63-71 | the grouping loop gives each profile and window exactly its own events, in order of time and id |
| `Windows.BuildFeatureWindows` | backend/src/sentinelueba/features/windows.py:29-60 | the loop with its seen sets gives one row per window, in key order, whose features describe the window's events and whose novelty counts are measured against all earlier windows of the same profile |
| `Windows.VisitedIsEarlier` | backend/src/sentinelueba/features/windows.py:36-49 | the names in a profile's seen set when one of its windows is visited are exactly those of its earlier events, for any visiting order that keeps each profile's windows in order |
| `Windows.FeaturesDescribed` | backend/src/sentinelueba/features/windows.py:86-137 | a window's features on its events alone: numbers of names, remotes and logins by result, mean and greatest reading of each kind, the hour its start lies in, events per minute, and the names and remotes that no earlier event of the profile has |
| `Sequences.TextLeqExactly` | backend/src/sentinelueba/features/windows.py:63-71 | ids are ordered as text: a beginning first, else by the first different character |
| `Windows.NoveltyConservation` | backend/src/sentinelueba/features/windows.py:29-60 | per profile the new-process counts add up to the number of distinct processes ever seen, and the new-remote counts to the number of distinct remotes |
| `RangeAgreement.AffectedRangeAligned` | backend/src/sentinelueba/features/materialization.py:222-291 | both ends of the rewritten range are window boundaries, whatever arrived |
| `RangeAgreement.BuiltIsRebuilt` | backend/src/sentinelueba/features/materialization.py:57-83 | building from the events and polls of a range and the novelty baseline before it gives exactly the rebuild's windows there: features, coverage, quality and hash inputs |
| `RangeAgreement.SeenInRange` | backend/src/sentinelueba/storage/sqlite.py:1633-1680 | the names of the baseline query and those seen inside the range make up everything the profile did before a window |
| `RangeAgreement.CoverageInRange` | backend/src/sentinelueba/storage/sqlite.py:1612-1631 | the overlap query keeps every poll that covers part of a window in the range, given polling intervals of at least a second |
| `RangeAgreement.IncrementalAgreesOnRange` | backend/src/sentinelueba/features/materialization.py:57-83 | after an incremental call on any new rows, even too late ones and for real data too, the rewritten range holds exactly the rebuild's windows and every other window is as before |
| `RangeAgreement.FullStoresRebuilt` | backend/src/sentinelueba/features/materialization.py:85-122 | a rebuild, and a first call over an empty table, store exactly the reference table |
| `RangeAgreement.OtherKindUntouched` | backend/src/sentinelueba/storage/sqlite.py:1704-1725 | a call for one dataset kind leaves the other kind's windows and cursors alone |
| `RangeAgreement.MaterializedStaysWellFormed` | backend/src/sentinelueba/storage/sqlite.py:1704-1725 | every stored window stays backed by an event or a poll after every call |
| `RangeAgreement.BuildersAgree` | backend/src/sentinelueba/features/materialization.py:293-371 | the in-memory builder and the materializer visit profiles in different orders but agree on every window's features |
| `StoredWindows.StoredExactly` | backend/src/sentinelueba/features/materialization.py:293-371 | a rebuild stores a window exactly where the grid has one with an event of the kind and profile in it or, for real data, a poll |
| `StoredWindows.WindowDescribed` | backend/src/sentinelueba/features/materialization.py:293-371 | each stored window describes exactly the rows of its kind, profile and time: features, number of events, types, sources, and the ids and times that are hashed |
| `StoredWindows.QualityDescribed` | backend/src/sentinelueba/features/materialization.py:510-601 | each stored real window says of each collector which share of it the collector's successful polls account for and is graded by these shares; synthetic ones are good exactly with an event |
| `IncrementalRuns.IncrementalExact` | backend/src/sentinelueba/features/materialization.py:222-291 | from a table in step with the events read so far, an incremental call stores the rebuild's table if and only if every new event older than the late-event interval before the watermark shares its window with a new one that is not |
| `IncrementalRuns.InRangeExactly` | backend/src/sentinelueba/features/materialization.py:256-291 | what the rewritten range amounts to: too late events fall into it exactly by sharing a window with an event in policy |
| `IncrementalRuns.TooLateMissed` | backend/src/sentinelueba/features/materialization.py:256-268 | a concrete store in which the default configuration misses an event from before the policy boundary |
| `LateEvents.LateCounted` | backend/src/sentinelueba/features/materialization.py:247-281 | a call counts as late within the policy the new events stamped in the late-event interval before the watermark, and as outside it the older ones |
| `LateEvents.LateRecorded` | backend/src/sentinelueba/storage/sqlite.py:1803-1830 | every new event stamped before the watermark is written down once, with its times, the boundary and the side it lies on, and earlier records stay |
| `LateEvents.LateKept` | backend/src/sentinelueba/features/materialization.py:247-291 | a concrete store in which the default configuration keeps an event half an hour late: window, counts and record |
| `IncrementalRuns.OnTimeIsInRange` | backend/src/sentinelueba/features/materialization.py:247-290 | events no older than the policy boundary always fall into the rewritten range |
| `IncrementalRuns.BoundedRangeIsLast` | backend/src/sentinelueba/features/materialization.py:289-291 | when the range has an end, no event read earlier lies at or beyond it, so no later window's novelty can change |
| `IncrementalRuns.SyncedAfterIncremental` | backend/src/sentinelueba/features/materialization.py:416-480 | the cursor and the watermark after a call stand for exactly the events that the table was built from |
| `IncrementalRuns.IncrementalEqualsRebuild` | backend/src/sentinelueba/features/materialization.py:37-197 | whole runs: after any mix of ingestion, observation and earlier calls with synthetic events in policy, the incremental table equals the rebuild's |
| `IncrementalRuns.FinalStays` | backend/src/sentinelueba/features/materialization.py:241-291 | an incremental call without new polls never lowers the watermark and keeps every window that ended 60 minutes before it |
| `IncrementalRuns.FinalWindows` | backend/src/sentinelueba/features/materialization.py:241-291 | window finality over whole event-only runs: a final window is never rewritten and stays final |
| `RealRuns.RealIncrementalExact` | backend/src/sentinelueba/features/materialization.py:57-83 | for real data, from a table in step and with events in policy, an incremental call stores the rebuild's table if and only if no new poll reaches into a stored window after all new rows, none of them late, that its collector had not fully covered before |
| `RealRuns.RealIncrementalEqualsRebuild` | backend/src/sentinelueba/features/materialization.py:37-197 | whole runs of real data: after any run in which that held at each call, an incremental call stores the rebuild's table if and only if it holds again |
| `RealRuns.ReachingPollIsMissed` | backend/src/sentinelueba/features/materialization.py:282-291 | a new poll that reaches into a stored window after all new rows is missed there unless its collector had fully covered the window before |
| `RealRuns.MorePollsNeverWorsen` | backend/src/sentinelueba/features/materialization.py:510-601 | storing one more poll never worsens the quality that a rebuild gives to any window |
| `RealRuns.PollMissed` | backend/src/sentinelueba/features/materialization.py:282-291 | a concrete store in which the default configuration misses such a poll |
| `RealRuns.NoEventBeyond` | backend/src/sentinelueba/features/materialization.py:289-291 | for real data too, with events in policy a range that has an end lies past every event |
| `RealRuns.IncrementalStaysInStep` | backend/src/sentinelueba/features/materialization.py:416-480 | after a call both cursors and the watermark stand for exactly the rows that the table was built from |
| `FeatureMaterializers.CollectorCoverageForWindow` | backend/src/sentinelueba/features/materialization.py:571-601 | the loop over polls gives each collector's covered fraction of the window, capped at one |
| `FeatureMaterializers.QualityOfWindow` | backend/src/sentinelueba/features/materialization.py:510-568 | the branches on coverage: a real window is good exactly with 80% of all three collectors and insufficient exactly with less than half of a core one; a synthetic one is good exactly when it has events |
| `Materialization.GradeExactly` | backend/src/sentinelueba/features/materialization.py:538-564 | good means 80% coverage by the system, process and network collectors, insufficient means less than half by a core one, and checks have passed exactly for good windows |
| `Materialization.ReasonsExactly` | backend/src/sentinelueba/features/materialization.py:542-559 | each reason is given exactly in its case |
| `Materialization.GapExactly` | backend/src/sentinelueba/features/materialization.py:560-567 | the reported gap is the share of the window that the best collector did not cover, and zero exactly when some collector covered all of it |
| `Materialization.MoreCoverageNeverWorsens` | backend/src/sentinelueba/features/materialization.py:538-555 | raising collectors' coverage never worsens the status |
| `FeatureMaterializers.FeatureNoveltyBaseline` | backend/src/sentinelueba/storage/sqlite.py:1633-1680 | per profile, the names and remotes before a time |
| `FeatureMaterializers.BuildWindows` | backend/src/sentinelueba/features/materialization.py:293-371 | the loop over windows by start, with its seen sets, gives each window of the range as the reference defines it, its features describing its events |
| `FeatureMaterializers.ClassifyNewEvents` | backend/src/sentinelueba/features/materialization.py:252-281 | the loop over new events gives the affected starts, the late counts, the unbounded flag and the late-event records |
| `FeatureMaterializers.FeatureMaterializer.FindAffectedRange` | backend/src/sentinelueba/features/materialization.py:222-291 | the range, which holds the window of every event in policy and has no end after a late one, and the late counts and late-event table after one call |
| `FeatureMaterializers.FeatureMaterializer.ReplaceFeatureWindows` | backend/src/sentinelueba/storage/sqlite.py:1704-1725 | windows of the range are replaced, others kept, and the state is stored with them |
| `FeatureMaterializers.FeatureMaterializer.Materialize` | backend/src/sentinelueba/features/materialization.py:37-197 | the whole new state of a call, incremental or full, with its late counts; from a state in step the table is the rebuild's |
| `Rules.RuleMonotone` | backend/src/sentinelueba/detection/rules.py:44-218 | for each of the five rules, raising feature values never loses a match and never lowers the strength, which stays between 0 and 100 |
| `RuleReadings.RareProcessExactly` | backend/src/sentinelueba/detection/rules.py:44-72 | the exact gates, and five points for each new process but the first |
| `RuleReadings.NewRemoteExactly` | backend/src/sentinelueba/detection/rules.py:75-106 | the exact gates, and two points for each new remote above the gate |
| `RuleReadings.UnusualHourExactly` | backend/src/sentinelueba/detection/rules.py:109-149 | the exact gates, and a point for each whole event per minute above the gate |
| `RuleReadings.ResourcePressureExactly` | backend/src/sentinelueba/detection/rules.py:152-181 | the exact gates, and a point for each whole percent of the greater peak above the least gate |
| `RuleReadings.FailureBurstExactly` | backend/src/sentinelueba/detection/rules.py:184-218 | the exact gates, and three points for each failed login above the gate |
| `RuleReadings.RuleOnEvents` | backend/src/sentinelueba/detection/rules.py:22-45 | from the event table to the signal: a rule matches the window a rebuild stores exactly when it is enabled and the window's events, counted on their fields, pass its gates |
| `Fusion.FuseIsReference` | backend/src/sentinelueba/detection/fusion.py:23-48 | the filter, sort, sum and clamp give the order-free score: the greatest strength, a rounded quarter of every other one, and four points per match but the first up to twelve |
| `Fusion.PrimaryLeads` | backend/src/sentinelueba/detection/fusion.py:42-43 | a decision has a primary signal exactly when something matched, and it is a matched signal that no other outranks, ties going to the smaller id |
| `Fusion.MatchesListed` | backend/src/sentinelueba/detection/fusion.py:22-58 | a decision lists the ids of exactly the matched signals and counts all but the primary one as corroboration |
| `Fusion.RoundsToNearest` | backend/src/sentinelueba/detection/fusion.py:44 | rounding goes to a nearest number and from a tie to the even one |
| `Fusion.QuarterSlope` | backend/src/sentinelueba/detection/fusion.py:44 | the half-even rounded quarter never grows faster than the strength it is taken of, so the order of signals cannot make a stronger signal cost score |
| `Fusion.ScoreMonotone` | backend/src/sentinelueba/detection/fusion.py:42-46 | stronger or newly matched signals never lower the fused score |
| `Fusion.RiskMonotone` | backend/src/sentinelueba/detection/contracts.py:64-68 | with thresholds in the validated order, a higher score never has a lower risk level |
| `Fusion.RiskBands` | backend/src/sentinelueba/detection/contracts.py:64-68 | each risk level is the band of scores from its threshold up to the next |
| `Fusion.RaisingFeaturesNeverLowersRisk` | backend/src/sentinelueba/detection/rules.py:44-218 | end to end, through rules, sort, rounding, bonus and clamp: raising feature values never lowers score or risk |
| `Fusion.FusedRisk` | backend/src/sentinelueba/detection/fusion.py:47-48 | every fused decision has a score between 0 and 100, the risk level of its score, and is a finding exactly when something matched, the score reaches the threshold and nothing suppresses it |
| `Fusion.ModelStrengthMonotone` | backend/src/sentinelueba/detection/service.py:2075-2085 | a model signal's strength is 0 exactly without a match, at least 50 with one, at most 100, and never falls when the anomaly score rises |
| `Fusion.ModelStrengthExactly` | backend/src/sentinelueba/detection/service.py:2075-2085 | with a match the strength is 50 points and up to 50 more in proportion to the relative margin |
| `Decision.FindingExactly` | backend/src/sentinelueba/detection/service.py:608-666 | a window becomes a finding if and only if its quality passes, a signal matched, the score reaches the threshold and no active suppression covers it |
| `Decision.StatusExactly` | backend/src/sentinelueba/detection/service.py:661-666 | the four stored statuses tell findings, suppressed, skipped and quiet windows apart, and a finding's fingerprint and risk come from its own policy |
| `Decision.SuppressionForFirst` | backend/src/sentinelueba/detection/service.py:1782-1821 | the suppression applied is the first of the active list that covers the window, and there is one exactly when some active suppression covers it |
| `Decision.SuppressionApplied` | backend/src/sentinelueba/detection/service.py:626-652 | the suppression named is the first one covering by signal, and only without any the first one covering what would be a finding by its fingerprint |
| `Decision.SuppressionReaches` | backend/src/sentinelueba/detection/service.py:1782-1821 | a suppression by signal reaches exactly the windows of its profile or dataset kind in which the signal matched, one by fingerprint exactly the findings with that fingerprint |
| `Decision.SameFingerprint` | backend/src/sentinelueba/detection/service.py:1878-1909 | two decisions share a fingerprint if and only if they agree on dataset kind, profile, primary signal, matched rules, policy id, version and hash, and model namespace |
| `Decision.SignalsByMode` | backend/src/sentinelueba/detection/service.py:608-660 | the signals of a window are those of the rules unless only the model counts, and the model's unless only the rules count |
| `FindingInvariants.PersistAggregated` | backend/src/sentinelueba/storage/sqlite.py:2967-3029 | persisting one evaluation keeps every finding the exact aggregate of its occurrences: count, first and last time, greatest score and its risk level |
| `FindingInvariants.MergeSumsUp` | backend/src/sentinelueba/storage/sqlite.py:2969-2993 | merging a hit from either side of a finding's span keeps its occurrences connected by steps of at most an hour |
| `FindingInvariants.AdjacentGaps` | backend/src/sentinelueba/storage/sqlite.py:2892-2902 | sorted by time, a finding's occurrences are never more than 60 minutes apart, whatever order they were persisted in |
| `FindingInvariants.StepWalked` | backend/src/sentinelueba/detection/service.py:889-938 | each finding's history stays a walk along the listed steps of the lifecycle from creation as open to its current status |
| `FindingInvariants.TransitionExactly` | backend/src/sentinelueba/detection/service.py:889-938 | a change goes through exactly along one of the sixteen listed steps, an end only when confirmed, and changes nothing but the finding's status and history |
| `FindingInvariants.EndedForever` | backend/src/sentinelueba/detection/service.py:889-938 | a resolved or false-positive finding keeps its status and gains no occurrence for the rest of every run |
| `FindingInvariants.OpensOrJoins` | backend/src/sentinelueba/storage/sqlite.py:2892-2966 | a hit goes to the active finding of its fingerprint within 60 minutes that was seen last; without one it opens a finding linked to the ended one of its fingerprint seen last, if there is one |
| `FindingInvariants.HitTakenIn` | backend/src/sentinelueba/storage/sqlite.py:2931-2995 | a joined finding spans and counts the hit too and keeps the greater score with its risk, an opened one starts with it |
| `FindingInvariants.StoresEvaluation` | backend/src/sentinelueba/storage/sqlite.py:2834-2885 | a stored evaluation keeps what it says, and no finding but its own changes |
| `FindingInvariants.PersistAccounted` | backend/src/sentinelueba/storage/sqlite.py:2994-3056 | per run the counters are the stored evaluations, those skipped and not, those with a finding, and of these the ones that opened it and the others; every evaluation with a finding has one occurrence with its time and score |
| `FindingInvariants.ReachableSound` | backend/src/sentinelueba/storage/sqlite.py:2821-3064 | aggregates, lifecycle walks and counts hold after any steps from a store in which they hold, in any order of persists and lifecycle changes |
| `FindingInvariants.EveryStoreSound` | backend/src/sentinelueba/storage/sqlite.py:2821-3064 | so they hold in every store that can be reached from the empty one |
| `FindingInvariants.LateCommit` | backend/src/sentinelueba/detection/service.py:905-936 | the status is read before the write transaction: histories stay walks if and only if it has not changed in between |
| `FindingInvariants.ResolvedReopens` | backend/src/sentinelueba/detection/service.py:905-936 | two changes that both read an open finding can take a resolved one back to acknowledged |
| `FindingStores.FindingStore.PersistEvaluation` | backend/src/sentinelueba/storage/sqlite.py:2821-3064 | the transaction's whole new state, and what it reports back |
| `FindingStores.FindingStore.FindMatch` | backend/src/sentinelueba/storage/sqlite.py:2892-2902 | the query for the correlated active finding seen last |
| `FindingStores.FindingStore.FindEnded` | backend/src/sentinelueba/storage/sqlite.py:2904-2914 | the query for the ended finding seen last |
| `FindingStores.FindingStore.IsEvaluated` | backend/src/sentinelueba/storage/sqlite.py:2834-2885 | whether the evaluation key is already stored, which makes a second insert a no-op |
| `FindingStores.FindingStore.TransitionFinding` | backend/src/sentinelueba/detection/service.py:889-938 | the three refusals in their order, and the whole new state |
| `Sessions.SessionsExact` | backend/src/sentinelueba/storage/sqlite.py:2891-2993 | hits of one fingerprint in time order share a finding if and only if no gap over 60 minutes separates them |
| `Sessions.SessionOpensFinding` | backend/src/sentinelueba/storage/sqlite.py:2903-2966 | a hit opens a finding if and only if it starts a session |
| `Sessions.NextHit` | backend/src/sentinelueba/storage/sqlite.py:2892-2902 | where the next hit goes, in terms of the time of the hit before it alone |
| `Sessions.StoredInOrder` | backend/src/sentinelueba/storage/sqlite.py:2834-3013 | new evaluations are stored one by one, each with the finding it went to |
| `Drain.PendingAfterBatch` | backend/src/sentinelueba/storage/sqlite.py:1934-1988 | after a batch exactly the windows that raised are pending again, ahead of those not read yet |
| `Drain.BatchThenRest` | backend/src/sentinelueba/detection/service.py:344-403 | a batch followed by the rest of the run stores what one run over all pending windows stores |
| `Drain.DrainedIsOrdered` | backend/src/sentinelueba/detection/service.py:344-403 | for every batch size a run ends with every pending window that does not raise evaluated, in order of start and id |
| `Drain.TerminatesExactly` | backend/src/sentinelueba/detection/service.py:344-403 | without a cap, the loop ends if and only if fewer pending windows raise than fit in one batch |
| `Drain.EachWindowOnce` | backend/src/sentinelueba/storage/sqlite.py:1934-1988 | a run without a cap gives a window one evaluation exactly if it is of the run's dataset kind, profile, interval and ids, has none yet with its id, input hash, policy hash and model id, and does not raise; otherwise none |
| `Drain.AddedInScope` | backend/src/sentinelueba/storage/sqlite.py:1934-1988 | every evaluation that a run adds, capped or not, is of a window it was asked for and that was not evaluated before |
| `Drain.AddedAt` | backend/src/sentinelueba/detection/service.py:363-401 | the i-th evaluation added is of the i-th window left, under the run's policy and model, and holds what the engine decided |
| `Drain.AddedInOrder` | backend/src/sentinelueba/storage/sqlite.py:1975-1983 | evaluations are added in order of window start and then window id |
| `Drain.OnlyFailuresLeft` | backend/src/sentinelueba/storage/sqlite.py:1948-1956 | nothing is left pending except what raised |
| `Drain.SecondRunIdle` | backend/src/sentinelueba/detection/service.py:344-403 | a run started after another one over the same windows, policy and model stores no evaluation and changes no finding, whatever raised before raising again; its counters stay at zero |
| `Drain.RunSessions` | backend/src/sentinelueba/detection/service.py:344-403 | a run persists in time order, so it groups the hits of every fingerprint into sessions |
| `DetectionRuns.EvaluateBatch` | backend/src/sentinelueba/detection/service.py:363-401 | a window that raises is passed over and marks the run; all others are persisted in order |
| `DetectionRuns.RunProfileOnce` | backend/src/sentinelueba/detection/service.py:340-414 | the loop with its batch limit, window cap and early exit terminates and stores exactly the first evaluations in order; all of them are of windows it was asked for, and without a cap or short of it every such window that does not raise is evaluated |
| `RuleReadings.WindowDecided` | backend/src/sentinelueba/detection/service.py:1467-1494 | a stored window is skipped exactly when the policy's gate does not let its quality pass, and a finding on it carries its dataset kind and profile |
| `Pipeline.PolicySignalsInBounds` | backend/src/sentinelueba/detection/contracts.py:85-182 | under a validated policy every signal of every window has a strength between 0 and 100 |
| `Pipeline.OtherEventsNeverRaiseRisk` | backend/src/sentinelueba/detection/service.py:1467-1494 | from the event table to the risk: events that arrive for other windows, however late, never raise the rules-only score or risk of a window in a rebuild, and never make it a finding |
| `Pipeline.DecisionConsistent` | backend/src/sentinelueba/detection/service.py:512-606 | what an evaluation hands to the store carries a fingerprint exactly with a finding, and the risk its policy gives to the score |
| `Pipeline.RunKeepsFindingsSound` | backend/src/sentinelueba/detection/service.py:281-414 | every detection run of a valid policy, whatever raises, keeps the aggregates, lifecycle walks and counts of all stored findings |
| `WorkerLease.DisplacedForever` | backend/src/sentinelueba/detection/service.py:1302-1387 | a displaced owner's heartbeats, stop polls and releases change nothing in any later interleaving, and its heartbeats and polls answer no for ever |
| `WorkerLease.TakeoverDisplaces` | backend/src/sentinelueba/detection/service.py:1112-1180 | a takeover leaves no row of the previous owner behind |
| `WorkerLease.RowsStaySeparate` | backend/src/sentinelueba/detection/service.py:1131-1180 | with fresh ids no two workers share an owner or worker id, over every interleaving |
| `WorkerLease.DisplacedOnlyByCause` | backend/src/sentinelueba/detection/service.py:1112-1130 | an owner keeps its lease unless it released it, was asked to stop, or let it run out, two intervals and at least 30 seconds after its last heartbeat, before somebody asked for it |
| `WorkerLease.UndisturbedWorker` | backend/src/sentinelueba/detection/service.py:1302-1366 | until then its heartbeats are answered yes, its stop polls no, and everybody else is refused |
| `WorkerLease.OpenAfterHeartbeat` | backend/src/sentinelueba/detection/service.py:1302-1330 | while nothing disturbs it, a lease is granted to others exactly from two intervals and 30 seconds after the owner's last heartbeat |
| `WorkerLease.OpenAfterGrant` | backend/src/sentinelueba/detection/service.py:1112-1130 | and, without any heartbeat, exactly from its lease time and one interval after it was acquired |
| `WorkerLease.OpenWithoutOwner` | backend/src/sentinelueba/detection/service.py:1095-1130 | a key without owner, or whose owner was asked to stop or has released it, is granted exactly for an interval of at least five seconds |
| `WorkerLease.PunctualWorker` | backend/src/sentinelueba/detection/service.py:1332-1354 | in every interleaving a worker with heartbeats less than 30 seconds apart, the first before its granted lease ends, that neither releases nor is asked to stop, keeps everybody else out |
| `WorkerLease.OwnershipAfter` | backend/src/sentinelueba/detection/service.py:1131-1170 | a step touches no row but its key's, and only a granted acquisition changes the owner, under the worker id the key already has |
| `WorkerLease.StatusAfter` | backend/src/sentinelueba/detection/service.py:1131-1387 | the status and stop flag that each step leaves |
| `WorkerLease.StopNotLost` | backend/src/sentinelueba/detection/service.py:1182-1202 | from the stop call on, the request stays, and every poll of the owner sees it, until the owner releases or somebody takes over; heartbeats do not clear it |
| `WorkerLease.StopEnds` | backend/src/sentinelueba/detection/service.py:1368-1387 | exactly those two steps end a stop request |
| `WorkerLease.ReleasedUntilHeartbeat` | backend/src/sentinelueba/detection/service.py:1368-1387 | a released lease stays open to others if and only if its former owner sends no further heartbeat |
| `WorkerLease.LateHeartbeatBlocks` | backend/src/sentinelueba/detection/service.py:1302-1330 | a heartbeat that arrives after the release makes the row live again and refuses the next owner for two intervals, at least 30 seconds |
| `WorkerLease.LeaseTable.AcquireLease` | backend/src/sentinelueba/detection/service.py:1095-1180 | the checks in their order, reuse of the worker id, and the new row with its expiry |
| `WorkerLease.LeaseTable.SendHeartbeat` | backend/src/sentinelueba/detection/service.py:1302-1330 | fenced renewal to two intervals and at least 30 seconds from now: status and expiry change, the stop flag does not |
| `WorkerLease.LeaseTable.StopWorker` | backend/src/sentinelueba/detection/service.py:1182-1202 | only live rows are marked |
| `WorkerLease.LeaseTable.IsStopRequested` | backend/src/sentinelueba/detection/service.py:1356-1366 | the poll matches worker and owner |
| `WorkerLease.LeaseTable.ReleaseLease` | backend/src/sentinelueba/detection/service.py:1368-1387 | fenced release: the flag is cleared and the lease runs out at once |
| `RegistryInvariants.RegistryInvariant` | backend/src/sentinelueba/ml/stage3_service.py:516-915 | after every serial history there is at most one champion per namespace, the one its promotion log replays to; champions are verified models of successful runs; the log is a chain |
| `RegistryInvariants.PromotedSound` | backend/src/sentinelueba/storage/sqlite.py:2480-2537 | promotion retires the old champion, makes the model champion and extends the chain |
| `RegistryInvariants.RetiredSound` | backend/src/sentinelueba/storage/sqlite.py:2539-2576 | retirement leaves the namespace without a champion and extends the chain |
| `RegistryInvariants.RollbackUndoes` | backend/src/sentinelueba/ml/stage3_service.py:859-918 | rolling back to the champion that a promotion retired is allowed and swaps the two again |
| `RegistryInvariants.GivenUpExactly` | backend/src/sentinelueba/storage/sqlite.py:2379-2397 | deleting a failed run's models keeps the invariant if and only if none of them has become champion |
| `RegistryInvariants.RecommendedExactly` | backend/src/sentinelueba/storage/sqlite.py:2353-2370 | the unchecked recommendation after training keeps the invariant if and only if the model is not champion |
| `RegistryInvariants.PromotedMidTraining` | backend/src/sentinelueba/ml/stage3_service.py:541-763 | a candidate may be promoted between the finalization of its run and the second verification; whether the training call then fails or recommends it, the promotion log no longer leads to the champion |
| `RegistryInvariants.FinalizedSound` | backend/src/sentinelueba/storage/sqlite.py:2399-2458 | finalization verifies only candidates of the run that agree with it on dataset, profile and split |
| `RegistryInvariants.ChecksExactly` | backend/src/sentinelueba/ml/stage3_service.py:823-918 | promotion, rollback, recommendation and retirement go through exactly for a confirmed, registered model whose files verify, that is finalized in a successful run it agrees with, in the right place of its life and, but for retirement, evaluated |
| `RegistryInvariants.BadFilesRefused` | backend/src/sentinelueba/ml/stage3_service.py:823-918 | a model whose files do not verify is refused each of them and nothing changes |
| `RegistryInvariants.PromotionExactly` | backend/src/sentinelueba/storage/sqlite.py:2480-2537 | a promotion or rollback changes the model and the previous champion only, and logs both and the action |
| `RegistryInvariants.RetirementExactly` | backend/src/sentinelueba/storage/sqlite.py:2539-2576 | a retirement changes its model only and logs that nobody follows |
| `RegistryInvariants.RecommendationExactly` | backend/src/sentinelueba/ml/stage3_service.py:834-857 | a recommendation changes its model only and logs nothing |
| `RegistryInvariants.TrainingExactly` | backend/src/sentinelueba/ml/stage3_service.py:541-763 | a training call succeeds exactly when its split is found, there is a family, all families build and check under new ids, and the bundles verify again; otherwise its run has failed and none of its models is left |
| `RegistryInvariants.SuccessExactly` | backend/src/sentinelueba/ml/stage3_service.py:541-763 | after success each family has a verified and evaluated model: the picked one champion if it passes the gate and its files verify, else recommended, the others candidates |
| `RegistryInvariants.TrainedSound` | backend/src/sentinelueba/ml/stage3_service.py:541-763 | a training call keeps the invariant wherever it fails |
| `ModelStores.ModelStore.FinalizeTrainingRunSuccess` | backend/src/sentinelueba/storage/sqlite.py:2399-2458 | all candidates are checked before anything is written |
| `ModelStores.ModelStore.PromoteModel` | backend/src/sentinelueba/storage/sqlite.py:2480-2537 | the whole new state, and the no-op for the champion itself |
| `ModelStores.ModelStore.Train` | backend/src/sentinelueba/ml/stage3_service.py:541-763 | the loop over families with its failure path: the whole new registry |
| `Split.PlanPartitions` | backend/src/sentinelueba/ml/stage3_split.py:49-216 | every plan cuts its chronological, duplicate-free rows into three consecutive parts of at least 32, 12 and 12 windows; the overlap and order guards never fire |
| `Split.PlanOnFields` | backend/src/sentinelueba/ml/stage3_split.py:86-216 | each part lists its rows' ids and spans them; real plans use the good rows only, synthetic test parts start with the first scenario |
| `Split.PlannedExactly` | backend/src/sentinelueba/ml/stage3_split.py:49-151 | a dataset is split exactly when features and schema are known, rows are in order with distinct ids, and there are five scenario windows and enough windows for each part |
| `Split.PlanKeepsRows` | backend/src/sentinelueba/ml/stage3_split.py:153-157 | no window is lost, repeated or moved |
| `Split.NoLeakage` | backend/src/sentinelueba/ml/stage3_split.py:86-125 | no training or calibration window belongs to a scenario, and all five windows 18, 19, 21.5, 22 and 23 hours after the start are in the test part |
| `Split.TestComesLast` | backend/src/sentinelueba/ml/stage3_split.py:86-151 | every window used for fitting or calibration comes before every test window |
| `Split.HashVerifies` | backend/src/sentinelueba/ml/stage3_service.py:1517-1523 | the verifier's canonical hash of a written split is the hash the planner signed, and the split's id is made of its first 16 characters |
| `Split.SignsEverything` | backend/src/sentinelueba/ml/stage3_split.py:165-183 | the signed payload covers everything a split says but its own id and hash |
| `Split.FieldsVerify` | backend/src/sentinelueba/ml/stage3_service.py:355-368 | a plan agrees with its dataset on every field the verifier compares |
| `Split.PartsInOrder` | backend/src/sentinelueba/ml/stage3_service.py:379-403 | the verifier's loop accepts exactly the parts whose counts and ranges fit, whose ranges follow one another and whose ids are distinct |
| `Split.VerifierAgrees` | backend/src/sentinelueba/ml/stage3_service.py:379-403 | the verifier accepts a plan if and only if the windows at its cuts do not overlap |
| `Split.TiledPlansPass` | backend/src/sentinelueba/ml/stage3_service.py:379-403 | plans of windows that do not overlap always pass |
| `Calibration.StrictRate` | backend/src/sentinelueba/ml/stage3_calibration.py:58-65 | the scores strictly above the returned threshold, which are what the engine flags, are fewer than the target rate for every score list |
| `Calibration.LeastThreshold` | backend/src/sentinelueba/ml/stage3_calibration.py:57-65 | a threshold flags at most the target share of the other scores if and only if it is at or above the returned one |
| `Calibration.ThresholdReached` | backend/src/sentinelueba/ml/stage3_calibration.py:66-80 | the threshold is one of the scores, and the reported count is that of the scores that reach it, at least one more than the engine flags |
| `Calibration.TiesAreReported` | backend/src/sentinelueba/ml/stage3_calibration.py:66-80 | with equal scores the reported flagged rate is one while the engine's strict comparison flags none |
| `Calibration.ReportedExactly` | backend/src/sentinelueba/ml/stage3_calibration.py:57-80 | the reported flagged rate stays within the target if and only if the scores from the threshold's position on, one more than the rounded share of the others, are within it and the score before that position is lower |
| `Calibration.SmallListsOverReport` | backend/src/sentinelueba/ml/stage3_calibration.py:66-80 | it never does for a list so short that the target share is less than one score |
| `Calibration.DistinctScoresOverReport` | backend/src/sentinelueba/ml/stage3_calibration.py:66-80 | twelve distinct scores at the default rate report one of twelve |
| `Calibration.CalibratesExactly` | backend/src/sentinelueba/ml/stage3_calibration.py:44-57 | calibration succeeds if and only if the rate lies strictly between 0 and 1, all scores are finite and there are at least twelve, and fails for the first of these that does not hold |
| `ProcessCollectors.DiffProcessSnapshots` | backend/src/sentinelueba/collectors/process.py:34-48 | the two loops give the specified events in order |
| `ProcessCollectors.DiffReplays` | backend/src/sentinelueba/collectors/process.py:34-48 | replaying one poll's events turns the old set of live processes into the new one, and every event fits the state it meets, pid reuse included |
| `ProcessCollectors.DiffExactly` | backend/src/sentinelueba/collectors/process.py:34-48 | a poll reports exactly the processes of the new snapshot that did not run before and those of the old one that do not run any more, as their snapshots show them |
| `ProcessCollectors.ReuseInOrder` | backend/src/sentinelueba/collectors/process.py:41-44 | when a pid was reused the old process stops right before the new one starts |
| `ProcessCollectors.PollsReplay` | backend/src/sentinelueba/collectors/process.py:100-123 | over any polls, failed ones included, replaying all events gives the processes of the last successful snapshot |
| `ProcessCollectors.EventsAlternate` | backend/src/sentinelueba/collectors/process.py:34-48 | started and stopped events of every process take turns over all polls |
| `ProcessCollectors.ProcessCollector.TakePoll` | backend/src/sentinelueba/collectors/process.py:100-123 | a failed poll emits nothing and keeps the snapshot to compare with |

## Left out

- RealRuns.RealIncrementalExact: is about exact coverage; rounding to four digits can hide a small change.
- FeatureMaterializers.FeatureMaterializer.Materialize: does not model the result dictionary, the last-run timestamps or the stored copy of the novelty baseline, which no code reads back.
- FeatureMaterializers.CollectorCoverageForWindow: does not round fractions to four digits; coverage and gaps are exact reals.
- Materialization.GradeExactly: grades exact fractions, where the source grades them rounded to four digits.
- StoredWindows.QualityDescribed: is about exact shares, where the source stores them rounded to four digits.
- RuleReadings.RuleOnEvents: is over exact reals, not binary floating point.
- RangeAgreement.CoverageInRange: does not model SQLite's Julian-day arithmetic in the overlap query; times are exact.
- Fusion.RaisingFeaturesNeverLowersRisk: is over exact reals, not binary floating point, and without the model signal.
- Pipeline.OtherEventsNeverRaiseRisk: is over exact reals and without the model signal.
- Fusion.ModelStrengthMonotone: is over exact reals, not binary floating point, and for finite scores and thresholds.
- FindingStores.FindingStore.PersistEvaluation: among findings last seen at the same time the first stored one is chosen, where the query leaves the order open; titles, summaries and evidence are not stored.
- DetectionRuns.RunProfileOnce: evaluating a window has the same outcome each time within one run; error texts and the blocked status of an unavailable model are not modelled.
- ModelStores.ModelStore.Train: the two writes of the failure path are one step, and file clean-up between them is not modelled.
- Split.PlanPartitions: the rounded 70% and 15% shares are any two counts, since the float products of the source are not the exact shares.
- ProcessCollectors.ProcessCollector.TakePoll: warnings about processes that could not be read during a successful snapshot are not modelled.
- Service calls are atomic steps, apart from the lifecycle change whose check comes before its write and the training call that `PromotedMidTraining` interrupts; threads and join time-outs are not modelled.
- Ingestion and its validation: events are appended, past the stored cursor, with non-empty process names.
- Dry runs, which persist nothing, and detection watermarks, which the pending query never reads.
- Training, scoring, evaluation metrics and drift: numeric libraries whose results are inputs here.
- Parsing and canonical JSON, SHA-256, Parquet, file renames and SQL migrations.
- Retention, cleaning and import, which break the append-only event table.
- HTTP and command-line layers, the dashboard, Windows services, supervision and collectors' operating-system calls.
- The network collector's snapshot difference, a simpler twin of the process one.
