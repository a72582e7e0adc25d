# Service monitoring: a verified model

This project models the parts of a service monitor that decide what its customers are told: how readings
become availability figures, how a report ships its evidence and an auditor recomputes it, how a browser
checks a ledger proof, how the platform clock takes enclaves out of service, and the small protocols around
them. Each Dafny module follows one source file or one step of it.

| module | what it models |
|---|---|
| `Intervals`, `Series`, `Ratios`, `Availability`, `Conservation` | the availability calculation, specified by sets of seconds |
| `Folding`, `FoldingLoops`, `Recorder`, `RecorderRuns` | readings folded into minutes and hours, and pruned, over whole runs |
| `Evidence`, `EvidenceMeaning`, `EvidenceRuns` | what a report ships, what it still means, and what it has after any run of the recorder |
| `Report`, `ReportMeaning` | the report document, the offline verifier, and the report of a selection |
| `Merkle` | the browser's sparse Merkle proof checker |
| `Clock`, `ClockService`, `ClockRuns`, `ClockTruth` | the platform-clock state machine, its runs, and what its record does not know |
| `RateLimit`, `TimeSource`, `Shutdown` | coupled token buckets, the time quorum, the shutdown protocol |
| `Threshold`, `Detect`, `Incidents`, `Damping`, `Judgement` | detection: the threshold automaton, rollup, incidents, flap damping, and when a live verdict is right |
| `Canon`, `TxId`, `Anchors`, `Chain` | canonical JSON, transaction identifiers, checkpoints, links and lineage |
| `Model`, `Sorting`, `Text`, `Keys`, `Decimal`, `Bytes` | shared values and orders |

Code that works in place keeps its form: loops are methods with invariants, mutated structs are classes, and
each such method is proved against a function or a relation on values; the theorems are lemmas about those.
Hashes and history links are ideal constructors, so equal digests come from equal parts. Sorting is a call
into Go's library and is modelled by its contract. Whatever comes from outside (answers of runtimes, of the
platform and of the store, query results whose order is free, fresh identifiers, clocks, goroutine arrival
order) is an input of the step that uses it. To verify:

    dafny verify dfyconfig.toml

## Main results

- The availability sweep refines a definition second by second (`Series.ComponentSeries`, `Availability.Compute`),
  and its figures conserve time (`Conservation.ServiceDowntimeBounds`, `Conservation.OutagesSumToDowntime`).
- Over every run each reading is counted once or came too late (`RecorderRuns.PrunedCountedExactly`), and hours
  are complete under an exact condition (`EvidenceRuns.HoursCompleteExactly`).
- A report of selected evidence means what all the minutes mean (`ReportMeaning.ReportOfSelectionIsReportOfMinutes`,
  `EvidenceRuns.ReportHasEveryDownSecond`), and its verdicts are reproduced under an exact condition
  (`Report.VerdictReproducedExactly`).
- A Merkle proof is accepted exactly when it is the trie's own (`Merkle.AcceptedExactly`); a canonical encoding is
  read back (`Canon.RoundTrip`); forks and lineages are caught exactly (`Chain.ForkCaughtExactly`,
  `Chain.IssuedLineageExactly`).
- What the platform clock asks for is decided by its history, and a release lifts its own quarantine under an
  exact condition (`ClockRuns.RequestsExactly`, `ClockTruth.ReleaseExactly`); trusted time stays true
  (`TimeSource.TrustedTimeIsTrue`), a call is refused exactly when it must be (`RateLimit.RefusedExactly`), and
  nothing is written after shutdown (`Shutdown.NoWriteAfterReturn`).
- A monitor is down exactly by its blocks of readings (`Threshold.DownExactly`), a component is judged rightly
  under an exact condition (`Judgement.JudgedOverRuns`), and incidents belong one to one to outages
  (`Incidents.OneIncidentPerOutage`).

The other rows below are the steps these rest on, and the small facts beside them.

## Where the code and its comments differ

The model follows the code; each difference below has a lemma.

- internal/core/reports.go:272-274 says hours and selected minutes lose nothing against all the minutes.
  Second by second that holds under an exact condition (`EvidenceMeaning.FaithfulExactly`), so with full hours
  everything is preserved (`EvidenceMeaning.SelectionPreserves`). Under rollup `any`, hours of any length lose
  no down second as long as they hold the minutes stored for them (`EvidenceMeaning.NoDownLost`).
- They do not always hold them. `foldHours` reads committed minutes only, so it misses the minutes the same
  `Fold` is about to commit: `Recorder.HourCompleteExactly` says when one hour row is complete, and
  `EvidenceRuns.HoursCompleteExactly` when all of them are, over every run. `EvidenceRuns.RunLosesDownSecond`
  is a run of four steps after which a report lacks a down minute the store has. The map `present` of
  internal/core/reports.go is never used, so a middle hour without an hour row never gets its minutes.
- The verifier reads the coverage floor back out of sentences printed to 10 ppm, and an objective whose metric
  is unknown can carry such a sentence in its name: `Report.VerdictReproducedExactly` says for every document
  when a verdict survives, and `Report.VerdictNotReproduced` is a report of which one does not.
- internal/core/detect.go:150-154 says an error reading leaves the current run intact. It ends it:
  `Threshold.ErrorBreaksTheBlock`.
- internal/core/detect.go:119-124 means to judge a component again on the first reading of a monitor whose
  state is unknown, but a state not yet stored starts as up and a stored one is never empty, so the branch is
  not taken. `Judgement.JudgedExactly` says when a verdict is right after a tick, `Judgement.JudgedOverRuns`
  when it is over a whole run, and `Judgement.RunShowsDownTooLong` is a run in which it is not.
- Open incidents are looked up by an unanchored LIKE on the component identifier. With identifiers of one
  length that is exact (`Incidents.SameLengthApart`); an identifier found inside another one of its service
  adopts the other component's incident (`Incidents.NameInsideName`).
- internal/clock/decide.go:39-41 says the monitor only lifts a quarantine it placed itself. It goes by its record
  and by lists, and the platform has a state of its own: `ClockTruth.ReleaseExactly` says over every run when
  what a release lifts is the monitor's quarantine and nothing else. In `ClockTruth.LostRecordRun` the record of
  a release is lost, in `ClockTruth.BetweenListsRun` an operator acts twice between two lists, and in
  `ClockTruth.OperatorFirstRun` an operator was there first; each ends in the release of an operator's quarantine.
- cmd/monitor-verify/main.go:231-233 and docs/auditing.md:58-59 say a fork shows as a link that does not match. Not
  if the signer lets one of two checkpoints of a version name the other (`Chain.ForkHides`): the check catches
  every fork of a signer exactly when it signed no such checkpoint (`Chain.ForkCaughtExactly`).
- internal/core/retention.go:54-56 says only folded readings are removed. A reading recorded below the watermark
  is never folded and is removed all the same (`EvidenceRuns.RunPrunesUncounted`);
  `RecorderRuns.PrunedCountedExactly` says which ones are.
- The final root of a lineage document is compared with nothing (`Chain.LineageExactly`), and a refresh can
  step the trusted time back: `TimeSource.TimeMovesOnExactly` says when, `TimeSource.RefreshCanStepBack` is a run.

## Model

| member | source | states |
|---|---|---|
| `Intervals.Merge` | internal/availability/interval.go:29-60 | for any list, unsorted or with empty ranges: the one normal list (sorted, non-empty, separated) of the seconds covered |
| `Intervals.Intersect` | internal/availability/interval.go:64-81 | the two-pointer walk gives the normal list of exactly the seconds in both inputs |
| `Intervals.Subtract` | internal/availability/interval.go:84-110 | the normal list of exactly the seconds of the base that no cut covers |
| `Intervals.Total` | internal/availability/interval.go:113-119 | the number of distinct seconds covered, overlaps counted once |
| `Intervals.Clip` | internal/availability/interval.go:122-124 | the normal list of the seconds inside the window |
| `Intervals.NormalUnique` | internal/availability/interval.go:29-60 | normal lists that cover the same seconds are identical |
| `Intervals.SplitConserves` | internal/availability/interval.go:64-119 | the totals of a minus b and of a with b in common add up to the total of a |
| `Ratios.RatioMonotone` | internal/availability/interval.go:130-141 | a larger share never reads as a smaller figure |
| `Ratios.Ratio` | internal/availability/interval.go:126-141 | within 0 and a million, and the nearest ppm: twice the error is at most the denominator |
| `Ratios.NoOverflow` | internal/availability/interval.go:130-141 | every product fits 64 bits for every numerator if and only if the denominator is at most 4611683712586 seconds |
| `Ratios.AvailabilityMonotone` | internal/availability/interval.go:145-154 | more downtime never reads as more available |
| `Series.MonitorSegments` | internal/availability/compute.go:196-226 | the disjoint segments say at every second what the finest, then earliest, then first reading says |
| `Series.ComponentSeries` | internal/availability/compute.go:237-302 | the boundary sweep refines the per-second definition: normal lists of exactly the seconds observed and down under the rollup rule, whatever order the maps are walked in |
| `Series.OrderIrrelevant` | internal/availability/compute.go:196-302 | with one row per monitor, width and start the answer does not depend on the order of the rows |
| `Series.WinnerLeads` | internal/availability/compute.go:196-226 | with unique rows the winner at a second is decided by width and start alone, never by position |
| `Series.RollupOrder` | internal/availability/compute.go:237-302 | what is down under the rule all is down under majority, and what is down under majority is down under any and observed |
| `Availability.Compute` | internal/availability/compute.go:63-177 | the accumulating loops return the result defined over sets of seconds, with the outages sorted |
| `Availability.Credit` | internal/availability/compute.go:373-381 | the loop returns the credit function that `Availability.CreditIsHighest` characterises |
| `Availability.CreditIsHighest` | internal/availability/compute.go:373-381 | the credit is the highest of the bands the figure falls under, and zero exactly when there is none above zero |
| `Availability.LatencyWithinBudget` | internal/availability/compute.go:354-371 | the share, over all components, of measured intervals within the budget |
| `Availability.Evaluate` | internal/availability/compute.go:311-348 | every objective scored in the order of the guards: unknown metric, no agreed time, coverage floor, target |
| `Conservation.NetAndExcluded` | internal/availability/compute.go:66-91 | net and excluded time add up to the scheduled time, and the schedule's intervals sum to it |
| `Conservation.ObservedAndGaps` | internal/availability/compute.go:92-173 | observed time and gaps add up to net time, and downtime is at most observed time |
| `Conservation.ServiceDowntimeBounds` | internal/availability/compute.go:92-150 | service downtime lies between the worst component's and the sum of all, which is the sum of the listed outages |
| `Conservation.OutagesSumToDowntime` | internal/availability/compute.go:92-130 | in whatever order they are listed, the outages of each component sum to its own downtime |
| `Conservation.OutagesSeparate` | internal/availability/compute.go:92-130 | two outages of one component neither overlap nor touch, and each states its own length |
| `Conservation.UserTimeBounds` | internal/availability/compute.go:92-165 | with non-negative weights users lose no more time than was agreed |
| `Conservation.FiguresAreShares` | internal/availability/compute.go:63-177 | every ppm figure lies between nothing and the whole |
| `Conservation.HeadlineIsNearest` | internal/availability/compute.go:132-165 | the headline figure is the exact uptime share to the nearest ppm |
| `Conservation.MeansAreAverages` | internal/availability/compute.go:132-150 | mean times times outages never exceed the time there was, and the mean repair time is at most the longest outage |
| `Folding.MinuteVerdict` | internal/core/samples.go:338-362 | down if and only if there are readings and no fewer failed than passed, error if and only if there are none, up if and only if all passed |
| `Folding.TallyCounts` | internal/core/samples.go:281-298 | every reading is counted once, under its own verdict |
| `FoldingLoops.CollectMinutes` | internal/core/samples.go:172-217 | one row for each monitor and minute, the fold of exactly its readings |
| `FoldingLoops.CollectHours` | internal/core/samples.go:220-267 | one row for each monitor and hour, the fold of exactly its minute rows |
| `Recorder.Recorder.Record` | internal/core/samples.go:38-104 | stores any reading, late or not, leaves every row and watermark as it was and keeps the invariant; only one at or above the watermark joins what folding will count |
| `Recorder.Recorder.Fold` | internal/core/samples.go:143-267 | writes exactly the minutes and hours due, changes no row there was, moves the watermarks forward, keeps the invariant |
| `Recorder.Recorder.PruneSamples` | internal/core/retention.go:53-88 | removes the oldest readings below the cut-off, at most 5000, none at or above the minute watermark |
| `Recorder.FoldKeeps` | internal/core/samples.go:143-267 | one fold keeps: each minute row counts exactly the readings of its minute that arrived in time, each hour row exactly the minutes visible to its call |
| `Recorder.HourCompleteExactly` | internal/core/samples.go:149-157 | an hour row sums all its minutes if and only if no reading of that hour was still waiting at the minute watermark |
| `RecorderRuns.NothingTakenBack` | internal/core/samples.go:143-267 | over any run of recording, folding and pruning, rows and watermarks only grow |
| `RecorderRuns.HistoryExactly` | internal/core/samples.go:38-104 | over any run, what folding counts from is exactly the readings that arrived at or above the watermark of their moment |
| `RecorderRuns.CountedInOneRow` | internal/core/samples.go:172-217 | over any run, each reading of the service that arrived in time and is below the watermark is counted in exactly one minute row |
| `RecorderRuns.LateIsNeverCounted` | internal/core/samples.go:172-217 | over any run, a reading that only arrived below the watermark is in no minute row |
| `RecorderRuns.PrunedIsCounted` | internal/core/retention.go:53-88 | over any run, a reading that arrived in time and is gone was counted first |
| `RecorderRuns.PrunedCountedExactly` | internal/core/retention.go:53-88 | over any run, a recorded reading of the service that is gone is counted in a minute row if and only if it once arrived at or above the watermark |
| `RecorderRuns.HourRowIsFinal` | internal/core/samples.go:220-267 | over any run, an hour row stays the sum of the minutes committed before the fold that wrote it |
| `Evidence.EvidenceBuckets` | internal/core/reports.go:275-336 | ships exactly the hours of the period and the minutes of the unclean and edge hours, each once, in key order |
| `EvidenceMeaning.FaithfulExactly` | internal/core/reports.go:275-336 | second by second and monitor by monitor, the shipped rows say what the minutes say if and only if the stored rows of that hour meet a stated condition |
| `EvidenceMeaning.SelectionPreserves` | internal/core/reports.go:272-336 | with full hours everywhere, the shipped rows give the same down and observed seconds as all minute rows, under every rollup |
| `EvidenceMeaning.NoDownLostExactly` | internal/core/reports.go:275-336 | under rollup any, no down second is lost if and only if every down minute lies in an hour whose minutes are read |
| `EvidenceMeaning.NoDownLost` | internal/core/reports.go:272-336 | under rollup any, when every hour row was folded from all the minutes stored for its hour and none is missing, no down second is lost, however few minutes an hour has |
| `EvidenceRuns.HoursCompleteExactly` | internal/core/samples.go:143-267 | over every run, every hour row sums all its minutes and none is missing if and only if no hour fold was due while a reading from before its end was waiting |
| `EvidenceRuns.ReportHasEveryDownSecond` | internal/core/reports.go:272-336 | after every such run a report over folded hours has, under rollup any, every down second of the store |
| `EvidenceRuns.RunLosesDownSecond` | internal/core/samples.go:143-169 | a run of two readings and two folds that leaves an incomplete hour, and a report of it that lacks a down second |
| `EvidenceRuns.RunPrunesUncounted` | internal/core/retention.go:53-88 | a run of four steps that removes a reading no minute row counts |
| `Report.BuildReport` | internal/core/reports.go:200-263 | the document states the calculation over its own readings, and each component's rule |
| `Report.Recompute` | cmd/monitor-verify/main.go:496-522 | the verifier's input is rebuilt from the document alone, and its result is the calculation on it |
| `Report.ImpliedFloor` | cmd/monitor-verify/main.go:528-541 | the floor of the first indeterminate verdict whose reason can be scanned |
| `Report.CoverageReasonFloor` | cmd/monitor-verify/main.go:528-541 | the floor read back from a generated reason is the floor less its last ppm digit |
| `Report.VerifierReproduces` | cmd/monitor-verify/main.go:496-522 | recomputing a document gives its own net time, downtime, outages, gaps, coverage, weighted and component figures |
| `Report.FloorReadByVerifier` | cmd/monitor-verify/main.go:528-541 | the floor read back from the generated verdicts is that of the first objective that bites or has a floor in its name |
| `Report.VerdictReproducedExactly` | cmd/monitor-verify/main.go:496-541 | for every document, an availability verdict is reproduced if and only if there is no agreed time or the floor read back bites exactly when the floor does |
| `Report.QuietVerdictExactly` | cmd/monitor-verify/main.go:496-541 | with no metric named like a floor, it is reproduced if and only if the coverage does not lie between the floor less its last digit and the floor |
| `Report.RoundFloorReproduces` | cmd/monitor-verify/main.go:496-541 | with no metric named like a floor, a floor that is a multiple of 10 ppm has every availability verdict reproduced |
| `Report.UnknownMetricPlantsFloor` | cmd/monitor-verify/main.go:528-541 | an unknown metric can be named so that any floor, less its last digit, is read back |
| `Report.PlantedFloorFlips` | cmd/monitor-verify/main.go:496-541 | in a service without a floor, a metric so named changes every availability verdict whose coverage lies below it |
| `Report.VerdictNotReproduced` | cmd/monitor-verify/main.go:496-541 | a report, as the service builds it, of which the second verdict is not reproduced |
| `Report.Undeclared` | cmd/monitor-verify/main.go:552-570 | the seconds of recomputed outages that no declared outage of the same component covers |
| `Report.NothingMissingExactly` | cmd/monitor-verify/main.go:552-570 | nothing is reported missing if and only if every down second is declared |
| `Report.ReportHidesNothing` | cmd/monitor-verify/main.go:552-570 | a report the service built has no undeclared downtime |
| `ReportMeaning.ReportOfSelectionIsReportOfMinutes` | internal/core/reports.go:200-336 | with full hours, a report over the shipped rows states the same figures and verdicts as one over every minute |
| `Merkle.DecodeProof` | internal/api/web/verify.js:48-67 | accepts exactly the encodings of the wire format and returns what was encoded; every other string is an error |
| `Merkle.CommonPrefixBits` | internal/api/web/verify.js:71-81 | the first bit at which two paths differ, or 256 |
| `Merkle.VerifyProof` | internal/api/web/verify.js:88-117 | the bottom-up loop computes the top-down fold, with the cover check before it |
| `Merkle.AcceptedExactly` | internal/api/web/verify.js:88-117 | against a well-formed trie the checker accepts exactly the trie's own proof of the position |
| `Merkle.Sound` | internal/api/web/verify.js:88-117 | an accepted proof says present, with its value, if and only if the trie holds the path, and absent if and only if it does not |
| `Merkle.Complete` | internal/api/web/verify.js:88-117 | every path, held or not, has an accepted proof |
| `Merkle.RootBinds` | internal/api/web/verify.js:42-44 | one root stands for one trie |
| `Merkle.EncodeInjective` | internal/api/web/verify.js:46-67 | two proofs with one encoding are the same proof |
| `Clock.DriftIsError` | internal/clock/decide.go:158-162 | over a round trip whose second leg is longer by a skew, the drift misses the clock's error by at most half the skew |
| `ClockService.Service.AdvancePosition` | internal/clock/service.go:533-556 | the position after a reading, field by field |
| `ClockService.Service.AlertOnVault` | internal/clock/service.go:601-648 | raises the alert decided and records what stands, in one write |
| `ClockService.Service.ClearUnconfiguredAlert` | internal/clock/service.go:498-530 | ends, once, an alert that stood while the runtime was unconfigured |
| `ClockService.Service.Act` | internal/clock/service.go:652-718 | one request, its effect on list and position only when applied, its record whatever the answer |
| `ClockService.Service.Poll` | internal/clock/service.go:368-493 | one poll is the poll step: reading, position, alerts and at most one request, with a list refresh in between |
| `ClockRuns.PositionIsHistory` | internal/clock/service.go:533-556 | after any run the stored position is what the recorded readings and actions say, field by field |
| `ClockRuns.DecisionFromHistory` | internal/clock/decide.go:88-124 | deciding on the position is deciding on the whole recorded history |
| `ClockRuns.OwnExactly` | internal/clock/service.go:549-554 | a quarantine counts as ours if and only if a recorded applied one was neither released nor seen lifted since |
| `ClockRuns.QuarantineSafety` | internal/clock/service.go:447-493 | over all runs: no vault, unarmed runtime or runtime already listed as out of service is asked to be quarantined; every release follows a quarantine of this monitor that stands by the record |
| `ClockRuns.RequestsExactly` | internal/clock/service.go:447-493 | a poll of an armed enclave asks for a quarantine, and for a release, if and only if the history calls for it |
| `ClockRuns.AlertLanguage` | internal/clock/service.go:601-648 | after any run the alerts follow the language and the standing row is their last unrecovered problem |
| `ClockRuns.VaultAlertExactly` | internal/clock/decide.go:189-277 | a poll of a vault announces exactly a problem that is not the one standing, or the recovery of the one that is |
| `ClockRuns.NeverTwiceInARow` | internal/clock/decide.go:247-277 | in that language no alert is raised twice in a row |
| `ClockRuns.AlertsOfKind` | internal/clock/decide.go:235-245 | a runtime of fixed kind only ever has alerts of its kind |
| `ClockRuns.ArmedHasNoUnconfiguredAlert` | internal/clock/service.go:498-530 | after a recorded poll no unconfigured alert stands on an armed enclave |
| `ClockTruth.HoldIsHistory` | internal/clock/service.go:652-709 | after every run the platform's state is what calls that took effect and operators made of it |
| `ClockTruth.BeliefAgainstTruth` | internal/clock/service.go:652-709 | while the record says a quarantine of this monitor stands, one took effect, and it stands at the platform if and only if since the last one no way back into service slipped past the record |
| `ClockTruth.ReleaseExactly` | internal/clock/decide.go:39-41 | over every run, what a release asked for lifts is this monitor's quarantine and no operator's if and only if since the last one took effect no operator put the enclave back and no release took effect unrecorded, and no operator took it out since it was last in service |
| `ClockTruth.LostRecordRun` | internal/clock/service.go:652-709 | a run with true lists in which the record of a release is lost and an operator's quarantine is then asked to be lifted |
| `ClockTruth.BetweenListsRun` | internal/clock/listing.go:41-78 | a run with true lists in which an operator lifts the monitor's quarantine and places one between two lists, and it is asked to be lifted |
| `ClockTruth.OperatorFirstRun` | internal/clock/listing.go:41-78 | a run in which the list is older than an operator's quarantine, the monitor places its own beside it, and both are asked to be lifted |
| `RateLimit.Bucket.Take` | internal/clock/ratelimit.go:29-46 | brings the bucket up to now, capped; a token goes only if there is one and it is to be spent |
| `RateLimit.RateLimiter.Allow` | internal/clock/ratelimit.go:50-64 | admits if and only if both buckets hold a token; touches no other key's bucket |
| `RateLimit.TokensWithinCapacity` | internal/clock/ratelimit.go:29-64 | over any run in time order every bucket holds between nothing and its capacity |
| `RateLimit.WindowBound` | internal/clock/ratelimit.go:13-64 | in any stretch of d minutes of any run, at most capacity times 1 + d calls are admitted, for one key and in all |
| `RateLimit.RefusedExactly` | internal/clock/ratelimit.go:13-64 | over any run, a call is refused if and only if admitting it would break the bound over some stretch, for its key or in all |
| `RateLimit.RefusalLeavesNoTrace` | internal/clock/ratelimit.go:48-64 | after a refused call every later decision is what it would have been without it |
| `TimeSource.Agreeing` | internal/clock/timesource/timesource.go:321-341 | the mean of the closest agreeing pair, the earliest on ties; nothing if and only if no two agree |
| `TimeSource.FindQuorum` | internal/clock/timesource/timesource.go:259-317 | two servers decide when they agree, otherwise all three, in any order of arrival |
| `TimeSource.Source.Refresh` | internal/clock/timesource/timesource.go:241-256 | adopts a quorum's offset; a failed refresh changes nothing it trusts |
| `TimeSource.AdoptedWithinError` | internal/clock/timesource/timesource.go:259-341 | with at most one wrong server an adopted offset is within the honest error plus one second |
| `TimeSource.TwoUsefulSucceed` | internal/clock/timesource/timesource.go:259-341 | two of three servers that answer in time and are honest to one second guarantee a quorum |
| `TimeSource.TrustedTimeIsTrue` | internal/clock/timesource/timesource.go:150-199 | over any such run the trusted time is within that error of the truth, never below the floor, and the floor vouches for it |
| `TimeSource.TimeMovesOnExactly` | internal/clock/timesource/timesource.go:150-256 | across any step the trusted time does not go back if and only if the step adopts no time before the one there was, unless the floor held that one |
| `TimeSource.StepsBackAtMost` | internal/clock/timesource/timesource.go:150-256 | in such a run it never goes back by more than twice the error |
| `TimeSource.RefreshCanStepBack` | internal/clock/timesource/timesource.go:241-256 | a run of two honest quorums across which it goes back |
| `Shutdown.NoStartAfterClosing` | internal/clock/shutdown.go:52-75 | in every interleaving no work is counted or started once closing is set |
| `Shutdown.NoAddAfterWait` | internal/clock/shutdown.go:52-83 | in every interleaving the wait group is never added to once the wait has begun |
| `Shutdown.NoWriteAfterReturn` | internal/clock/shutdown.go:70-101 | in every interleaving no guarded write runs after Shutdown returned |
| `Shutdown.NoWriterOnceGone` | internal/clock/shutdown.go:88-101 | from the moment gone is set no thread is inside a guarded write or can enter one |
| `Shutdown.WaitMeansDone` | internal/clock/shutdown.go:78-84 | when the wait ends by itself all work counted has run and ended |
| `Shutdown.NeverStuck` | internal/clock/shutdown.go:70-101 | in every interleaving Shutdown never waits for background work: its next step is open, or the threads it waits for can move on by themselves |
| `Threshold.Monitor.Advance` | internal/core/detect.go:147-180 | the fields are updated as the automaton says |
| `Threshold.DownExactly` | internal/core/detect.go:147-180 | a monitor is down if and only if a block of the failure threshold occurred and no later block of equal readings reached the recovery threshold |
| `Threshold.ErrorBreaksTheBlock` | internal/core/detect.go:149-162 | an error reading keeps the verdict and ends the block |
| `Threshold.VerdictWhileUp` | internal/core/detect.go:147-180 | while a monitor is not down it reports its last reading that was up or degraded |
| `Detect.LatestIsNewest` | internal/core/detect.go:77-85 | each monitor moves on its newest automatic reading, the last one on ties |
| `Detect.Judged` | internal/core/detect.go:190-250 | the count over the rows, in any order, gives the rule over the monitors that have a state |
| `Detect.LiveRuleIsReportRule` | internal/core/detect.go:226-250 | the live verdict is down by the same rule the report applies |
| `Detect.RollUpComponent` | internal/core/detect.go:252-351 | what a change writes: state, incident opened or closed, alerts damped |
| `Detect.Detector.Detect` | internal/core/detect.go:69-144 | one tick: newest readings, monitors advanced, touched components rolled up once in order, all from the tables as they were |
| `Incidents.DownMeansIncident` | internal/core/detect.go:184-351 | over any run a component is down if and only if it carries an incident, which is open and its own |
| `Incidents.OneIncidentPerOutage` | internal/core/detect.go:440-533 | over any run every unresolved incident belongs to a component that is down, and none has two |
| `Judgement.JudgedExactly` | internal/core/detect.go:106-260 | after a tick with readings a component has the verdict its rule gives its monitors if and only if one of them turned or it had that verdict already |
| `Judgement.TouchedIsJudged` | internal/core/detect.go:184-260 | after a tick every component with a monitor that turned has the verdict its rule gives its monitors |
| `Judgement.TickJudged` | internal/core/detect.go:106-260 | under one configuration a component is judged rightly after a tick if and only if it was touched, or was right before and no first readings took it below its rule |
| `Judgement.JudgedOverRuns` | internal/core/detect.go:106-260 | over every run under one configuration the live verdict is the rule's, or down where the rule says degraded; the latter exactly when first readings took it below its rule and none of its monitors turned since |
| `Judgement.RunShowsDownTooLong` | internal/core/detect.go:106-124 | a run of two ticks after which a component is shown as down although its rule says degraded |
| `Judgement.FirstPassGoesUnnoticed` | internal/core/detect.go:106-124 | a new monitor's first pass leaves its component down although the rule all says otherwise |
| `Incidents.AlertsPerWindow` | internal/core/detect.go:273-348 | over any run at most six change alerts and one flapping alert are raised in a flap window |
| `Damping.AlertsPerHour` | internal/core/detect.go:273-348 | over any run whose clock does not go back, a component raises at most twelve change alerts and two flapping alerts in any hour |
| `Incidents.SameLengthApart` | internal/core/catalogue.go:24-30 | identifiers made with one prefix and one length are never found inside each other |
| `Incidents.NameInsideName` | internal/core/detect.go:440-452 | an identifier inside another one of its service makes the incident invariant fail |
| `Canon.Buffer.WriteText` | internal/canon/canon.go:126-158 | appends the quoted, minimally escaped text |
| `Canon.Buffer.Write` | internal/canon/canon.go:54-103 | appends the one encoding of the value, whatever order the map's keys come in |
| `Canon.RoundTrip` | internal/canon/canon.go:54-158 | a parser that knows nothing of the encoder gives the value back and leaves nothing over |
| `Canon.Injective` | internal/canon/canon.go:1-12 | two values with one encoding are the same value |
| `TxId.PutUint64` | internal/model/envelope.go:186-191 | the array holds the number big-endian |
| `TxId.TxID` | internal/model/envelope.go:173-184 | what is hashed is the framed pair |
| `TxId.Injective` | internal/model/envelope.go:168-184 | the hashed bytes determine both envelope and write set |
| `Anchors.KeyOrder` | internal/core/anchors.go:56-60 | keys sort as versions do, and are distinct |
| `Anchors.Ledger.ReadCheckpoints` | internal/core/anchors.go:188-219 | paging by 256 from the successor of the last key reads the whole chain, once, in order, reversed in place and limited as asked |
| `Anchors.Ledger.IssueCheckpoint` | internal/core/anchors.go:79-123 | files one checkpoint that names the one before it, and none when the state has not moved |
| `Anchors.PageAdvances` | internal/core/anchors.go:192-210 | a page and what lies after its last key are what was left to read |
| `Chain.RunKeepsChain` | internal/core/anchors.go:79-123 | whatever is committed and requested, checkpoints form one chain with rising versions |
| `Chain.CheckLinks` | cmd/monitor-verify/main.go:203-254 | no broken link if and only if every checkpoint, by version, names the one before it |
| `Chain.SegmentExactly` | cmd/monitor-verify/main.go:228-251 | checkpoints of a chain pass if and only if they are a contiguous segment of it |
| `Chain.ForkPassesExactly` | cmd/monitor-verify/main.go:231-251 | a document with two checkpoints of one version passes if and only if its rising links match and every checkpoint that follows one of its own version names it; some checkpoint of that version then names its twin |
| `Chain.ForkCaughtExactly` | cmd/monitor-verify/main.go:231-251 | every document with a fork, made of what was signed, breaks a link if and only if no signed checkpoint names another one of its own version |
| `Chain.ForkShows` | cmd/monitor-verify/main.go:231-251 | where references are to lower versions only, as the service signs them, two checkpoints of one version always break a link |
| `Chain.ForkHides` | cmd/monitor-verify/main.go:231-251 | a document of two checkpoints of one version that passes the link check |
| `Chain.VerifyLineage` | cmd/monitor-verify/main.go:263-329 | accepts if and only if the roots, by version, fold to the later anchor's head |
| `Chain.LineageExactly` | cmd/monitor-verify/main.go:256-329 | between anchors of the true history: accepted if and only if versions are contiguous and every root below the final one is true |
| `Chain.IssuedLineageExactly` | cmd/monitor-verify/main.go:256-329 | over every run, between two checkpoints issued: accepted if and only if every version in between is listed, with the committed root at each below the later one |

## Left out

- HTTP surface, pages, feeds, role checks, configuration, alert delivery, messages and logs: input and output.
- Ed25519, SHA-256, key management and the encrypted store: hashing and linking are ideal constructors, signatures are left out of checkpoints and reports.
- The SQL engine: tables are maps or lists with unique keys; a query is what its text asks for, and query order is an input. LIKE treats the underscore as one character; percent signs in identifiers are not modelled.
- Schedules and time zones: the scheduled intervals are an input of the calculation.
- Latency percentiles and the latency columns of folded rows; a latency objective in the verifier, because the report does not carry its budget.
- Sub-period listings, incident texts attached to outages, exclusion reasons and the report's hash and signature.
- 64-bit overflow outside `Ratio`, and negative Unix times in evidence selection and folding.
- Hexadecimal text of roots, paths and proofs: the models start from bytes.
- UTF-8 in canonical JSON: text is a list of Unicode characters, which sort as their UTF-8 bytes do; floating-point numbers in canonical JSON.
- What `Sscanf` does with newlines and non-ASCII spaces before a number.
- The sequence numbers of floors, the time-out lengths, and the config-missing and monitor-wrong alerts of a poll.
- Incidents opened or edited by people: the incident theorems are about runs without them.
- Clipping of long texts in stored clock positions.
- A second call of `Shutdown`; and a pending exclusive lock holding back later readers, so the model allows more interleavings than Go does.
- `Judgement.JudgedOverRuns`: for readings that carry the component their monitor is configured for, and ticks after 1970.
- `Damping.AlertsPerHour`: for times that do not go back; the bound per window needs no such thing.
- `RateLimit.WindowBound`: for times that do not go back, which Go's monotonic clock provides.
- `Ratios.NoOverflow`: says when 64 bits suffice; what the figure becomes when they do not is not modelled.
