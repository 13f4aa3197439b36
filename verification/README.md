# probeboard: a model of the monitoring data path

probeboard probes endpoints from any number of workers that share one PostgreSQL database. This project models, in
Dafny, the parts of it whose correctness is not visible in one function, and proves what they promise over whole runs.

**Rollup, retention and windowed reads.** Workers insert raw results; a rollup pass folds them into minute, hour and
day aggregates behind a watermark over transaction ids; retention detaches and drops whole partitions; a read answers a
window from the aggregates alone. `Warehouse` is the shared database as a state machine of atomic steps, with
transactions running, committed or aborted. `RollupRepository`, `RetentionService` and `StatsRepository` are the
sessions that act on it, statement by statement, with any other session's steps in between. `Window`, `Histogram`,
`Percentile` and `Aggregate` are what they compute with; `Calendar`, `Decimals`, `PartitionPeriods` and
`PartitionService` are the UTC periods, names and partitions. `RetentionGap` says when the catalogue alone makes an
answer exact, with the runs `PartitionHistory` builds for every catalogue there can be; `RetentionPass` is the one
retention pass that makes an accepted answer wrong.

**Claims and leases.** Workers adopt, reconcile, claim, release and abandon rows of one runtime table. `Scheduling` is
those statements, and the timers each worker arms, as atomic steps on microsecond time; `EndpointRuntimeRepository` is
the same statements as updates in place; `ResultRecorder` is the terminal write and its retries; `ProbeAttempt` is one
slot from its claim to that write; `SchedulerService` is one worker's tick, pool and stop between its awaits, with all
other workers at the same tables.

**The limiter.** `RateLimiter` is the sign-in limiter statement by statement: locks, counts, inserts, successes and
sweeps. `AuthAttemptRepository` is its table updated in place.

**Probing.** `BodyCap` and `Assertions` are the capped read and what may be concluded from it; `JsonPath` and
`JsonValue` are the path language and the equality the assertions use; `RedirectRules` and `Probe` are the redirect
loop.

A class stands for each object whose methods update its fields. Its methods are proved equal to the step functions of
the module they belong to, and the theorems over runs are about those steps. `Arithmetic` and `Wrappers` are helpers
shared by several modules.

What the proofs found:

- A window that passes the check before the read and the check after it can still be answered wrongly, when retention
  detached a newer partition while an older one stayed (`RetentionGap.AcceptedButPartial`); one pass whose first detach
  times out before marking its partition does that (`RetentionPass.GapPass`). The comment at
  `src/core/stats/window.ts:26-30` promises never a partial answer. Knowing which partitions are live, the answer is
  exact whatever the history if and only if every hour and minute bucket of the plan lies in a live one
  (`RetentionGap.ExactIffServed`); the code compares with the oldest start only.
- The lease rule of the configuration is exactly what mutual exclusion needs: one microsecond less and two workers can
  be in contact with one endpoint at once, with no timer late (`Scheduling.LeaseRuleIsExact`).
- A sweep of the limiter's table is harmless exactly while it runs no further ahead of a reservation's own timestamp
  than the retention exceeds the window (`RateLimiter.PruningIsHarmlessIff`).
- Sorted advisory locks rule deadlock out exactly when at most one lock number is both an account's and an address's
  (`RateLimiter.LocksNeverStickIff`): the sort is over names, the locks are over their hashes.
- "One value has one spelling" (`src/core/assertions/json-path-grammar.ts:20-22`) holds of a path exactly when each of
  its indexes is below 2^53, or is below 2^54 and twice an odd number (`JsonPath.OneSpellingIff`): any other index is
  also the double of the next integer. No lookup can tell (`JsonValue.RoundingReadsTheSame`).
- With hourly partitions a number of months ahead, daily ones may run as many days ahead as the shortest such months
  have, and no more (`PartitionService.HourlyKeepsUpIff`). Of the settings the configuration allows, one month ahead
  with 29 or 30 days fails, and nothing else (`PartitionService.ConfiguredHorizons`).
- A period start computed for an instant of the years 0 to 99 lies after it (`Calendar.PeriodHoldsIff`).
- A partition name reads back exactly for the years 100 to 9999 (`PartitionPeriods.SuffixRoundTrip`).

## Model

| member | source | states |
|---|---|---|
| `Histogram.BucketIsInclusiveAbove` | src/core/stats/constants.ts:8-15 | the bucket the SQL fold files a latency under is the one whose edges enclose it, upper edge included, and no other |
| `Histogram.BucketIndex` | src/core/stats/histogram.ts:10-17 | the application's scan and the SQL `width_bucket` agree on every latency |
| `Histogram.MergeLaws` | src/core/stats/histogram.ts:23-29 | merging histograms is commutative and associative with the empty histogram as unit, so any merge order gives one result |
| `Histogram.HistOfConcat` | src/core/stats/histogram.ts:23-29 | merging two histograms gives the histogram of both sample sets together |
| `Histogram.PrefixSumCounts` | src/core/stats/constants.ts:8-15 | a histogram's cumulative counts are the cumulative counts of its samples |
| `Histogram.HistCountsSamples` | src/core/stats/histogram.ts:31-33 | a histogram's total is the number of samples in it |
| `Percentile.Percentile` | src/core/stats/percentile.ts:27-58 | which inputs are rejected, that an empty histogram and only it gives no value, and that any value splits the bucket holding the rank in the proportion in which the rank splits the bucket's samples |
| `Percentile.RankFindsOrderStatistic` | src/core/stats/percentile.ts:39-49 | the bucket the rank falls in is exactly the bucket of the true order statistic of the samples |
| `Percentile.PercentileBracketsTruth` | src/core/stats/percentile.ts:10-26 | for any samples, value and true order statistic lie in one bucket cut down to the observed range; the value splits that span as the rank splits the samples between the bucket's edges, and never leaves the range |
| `Percentile.PercentileMonotone` | src/core/stats/percentile.ts:27-58 | a higher rank never gives a smaller value |
| `Percentile.KthSmallestExists` | src/core/stats/percentile.ts:41-41 | every rank from one to the sample count has a true order statistic to compare with |
| `Aggregate.MergeIsCommutativeMonoid` | src/worker/rollup/repositories/rollup.repository.ts:138-160 | the upsert's row merge is commutative and associative with the empty row as unit |
| `Aggregate.AggSplit` | src/worker/rollup/repositories/rollup.repository.ts:118-137 | disjoint selections of rows aggregate separately and merge to the aggregate of both |
| `Aggregate.ProbesCountRows` | src/worker/rollup/repositories/rollup.repository.ts:122-125 | the four outcome counts add up to the number of rows selected |
| `Aggregate.CountColumns` | src/worker/rollup/repositories/rollup.repository.ts:122-125 | each outcome column counts the selected rows of that outcome and no other |
| `Aggregate.SecondsColumns` | src/worker/rollup/repositories/rollup.repository.ts:126-128 | covered seconds are the intervals of the selected rows whose outcome is known, up and degraded seconds those of the up and of the degraded ones |
| `Aggregate.TimeColumns` | src/worker/rollup/repositories/rollup.repository.ts:129-132 | the two sums are of the total times and of the header times of the selected rows that got a response |
| `Aggregate.AggKeepsLatencies` | src/worker/rollup/repositories/rollup.repository.ts:129-133 | an aggregate carries exactly the histogram and the extremes of the latencies of its responding rows |
| `Calendar.DayFromYearClosedForm` | src/worker/storage/utils/partition-periods.ts:34-44 | counting days year by year agrees with the standard's closed form (section 21.4.1 of ECMA-262) |
| `Calendar.CivilRoundTrip` | src/worker/storage/utils/partition-periods.ts:34-44 | a valid date survives the trip through its day number |
| `Calendar.DatesAscend` | src/worker/storage/utils/partition-periods.ts:34-44 | day numbers order dates as the calendar does |
| `Calendar.PeriodContains` | src/worker/storage/utils/partition-periods.ts:34-44 | for every instant, the computed period is the one period that contains it and starts outside the years 0 to 99; such a period contains no instant of those years |
| `Calendar.PeriodHoldsIff` | src/worker/storage/utils/partition-periods.ts:34-44 | an instant lies in the period computed for it if and only if its year is not one from 0 to 99 |
| `Calendar.DaysNestInMonths` | src/worker/storage/utils/partition-periods.ts:34-44 | every day lies inside one month |
| `PartitionPeriods.SuffixRoundTrip` | src/worker/storage/utils/partition-periods.ts:46-86 | a name reads back as its start for the years 100 to 9999 and as nothing for any other year |
| `PartitionPeriods.NameIsUnique` | src/worker/storage/utils/partition-periods.ts:73-86 | a text that reads as a period is that period's own name; a text that does not is no nameable period's name |
| `PartitionPeriods.TextOrderIsTimeOrder` | src/worker/storage/services/retention.service.ts:246-254 | the text order of names is the time order of the periods they name |
| `PartitionPeriods.LeastNameIsOldest` | src/core/stats/repositories/stats.repository.ts:69-94 | the least name of any set of partitions decodes to the oldest start among them |
| `PartitionPeriods.GreatestNameIsHorizon` | src/worker/storage/services/partition.service.ts:102-117 | the greatest daily name decodes to the bound the newest partition was attached with |
| `PartitionPeriods.PeriodsCovering` | src/worker/storage/utils/partition-periods.ts:51-58 | a gap-free ascending chain of named periods from the start of the first one to just past the end of the range, for every input |
| `PartitionPeriods.CoverIsExact` | src/worker/storage/utils/partition-periods.ts:51-58 | every instant of the cover lies in exactly one of its periods, and its starts are all the period starts there are if and only if none is in the years 0 to 99 |
| `PartitionService.HonestTablesAreDisjoint` | src/worker/storage/services/partition.service.ts:80-93 | tables whose bounds are the ones their names read as never overlap, so no attach fails for that |
| `PartitionService.HonestGrows` | src/worker/storage/services/partition.service.ts:73-95 | creating the missing tables of a range keeps every table's bounds the ones its name reads as |
| `PartitionService.Partitions.EnsureRange` | src/worker/storage/services/partition.service.ts:57-100 | with tables bounded as they are named, every instant of the range lies in a table of each family, days under eight digits up to one end and hourly months under six up to the other; existing tables are untouched, and the returned names are exactly the new ones; without the lock nothing happens |
| `PartitionService.Partitions.HorizonDays` | src/worker/storage/services/partition.service.ts:102-117 | the days from now to the latest end of an attached raw partition, zero for none and never negative |
| `PartitionService.HourlyKeepsUpIff` | src/worker/storage/services/partition.service.ts:44-54 | with hourly tables `months` ahead, from 1 to 12, every day that has a daily table has an hourly one if and only if daily tables run no further ahead than the fewest days so many months can have |
| `PartitionService.ConfiguredHorizons` | src/core/config/schema.ts:449-451 | over the configured ranges that is so if and only if hourly tables are at least two months ahead or daily ones at most 28 days |
| `Window.PlanWindow` | src/core/stats/window.ts:56-85 | which windows are rejected and why: an accepted one is the coarsest tiling and every hour and minute of it starts no earlier than the oldest one stored; the error names the first tile that starts earlier |
| `Window.GreedyTiles` | src/core/stats/window.ts:41-85 | the plan's tiles are aligned and cover the window end to end |
| `Window.TilesCoverOnce` | src/core/stats/window.ts:13-18 | every instant of the window lies in exactly one tile and the tiles ascend |
| `Window.GreedyIsCoarsest` | src/core/stats/window.ts:41-43 | every aligned tiling of the window refines the plan, so none has fewer tiles |
| `Window.EdgeBucketsAreBounded` | src/core/stats/repositories/stats.repository.ts:49-53 | however long the window, at most 46 hour and 118 minute buckets are read |
| `Window.StartsAscend` | src/core/stats/window.ts:97-100 | the starts of a plan ascend within each grain, so the first is the oldest |
| `Window.RecheckCoversEveryTile` | src/core/stats/repositories/stats.repository.ts:139-150 | re-checking the oldest start of each grain is re-checking every tile |
| `Warehouse.FoldMaterialises` | src/worker/rollup/repositories/rollup.repository.ts:99-137 | folding one batch moves the aggregates of all three grains from one watermark to the next |
| `Warehouse.RunKeepsInv` | src/worker/rollup/repositories/rollup.repository.ts:26-43 | whatever writers, passes and retention do in whatever order, aggregates equal the committed rows below the watermark, no partition let go holds an unfolded row, and the watermark never goes back |
| `Warehouse.RunLeavesFinalRows` | src/worker/rollup/repositories/rollup.repository.ts:33-39 | below a watermark no running transaction is under, no row ever commits, changes or disappears later |
| `Warehouse.FoldedExactlyOnce` | src/worker/rollup/repositories/rollup.repository.ts:29-37 | after any run, a stored aggregate row is the direct aggregate of the committed rows of its bucket below the watermark, absent only when there are none |
| `Warehouse.BatchingDoesNotMatter` | src/worker/rollup/repositories/rollup.repository.ts:66-83 | two histories with the same rows and watermark read the same, whatever the batch sizes |
| `Warehouse.GuardSeals` | src/worker/storage/services/retention.service.ts:303-323 | a partition its guard lets go holds nothing that is, or can become, unfolded |
| `Warehouse.UnfoldedRowIsSafe` | src/worker/storage/services/retention.service.ts:82-86 | a committed row at or above the watermark is visible and both its aggregate partitions are still there |
| `Warehouse.RetentionLosesNothing` | src/worker/storage/services/retention.service.ts:208-244 | in every reachable state, rows of partitions being detached, detached or dropped are below the watermark, and so are rows whose aggregate partitions are gone |
| `Warehouse.EachKeepsItsDays` | src/worker/storage/services/retention.service.ts:92-105 | in every reachable state a partition that is no longer attached ended its own family's days ago: raw, minute and hour each by the setting of that name |
| `Warehouse.PartsAreDaysAndMonths` | src/worker/storage/utils/partition-periods.ts:34-44 | raw and minute partitions are UTC days and hour partitions are calendar months, each holding the instant it is for |
| `Warehouse.FoldedHadTargets` | src/worker/rollup/repositories/rollup.repository.ts:99-137 | in every reachable state the minute and hour partitions of each folded row were once created |
| `RollupRepository.BatchIsWholeTransactions` | src/worker/rollup/repositories/rollup.repository.ts:69-79 | a batch that ends at the n-th transaction holds exactly the n whole transactions before it |
| `RollupRepository.Database.NextUpper` | src/worker/rollup/repositories/rollup.repository.ts:66-83 | a batch that ends before the horizon holds exactly `batchXids` transactions with a committed row in an attached raw partition, and the last batch at most that many |
| `RollupRepository.Database.UpsertGrain` | src/worker/rollup/repositories/rollup.repository.ts:138-160 | upserting group by group folds the batch into exactly that grain's rows |
| `RollupRepository.Database.Fold` | src/worker/rollup/repositories/rollup.repository.ts:104-107 | the three upserts are the batch's fold in every grain, and the count returned is the rows in it; what each column of a fold counts is `Aggregate.CountColumns`, `SecondsColumns`, `TimeColumns` and `AggKeepsLatencies` |
| `RollupRepository.Database.RunOnce` | src/worker/rollup/repositories/rollup.repository.ts:48-97 | a pass is skipped while another holds the row; it fails only at the first failing statement it reaches, or for a row whose aggregate partition is missing, and then changes nothing; otherwise it finishes: the watermark is the horizon it read, whatever the batch size, and past every committed transaction older than all those running at its start; the report is exactly the rows in between, and the timestamp moves only with the watermark |
| `RetentionService.BlockedForCause` | src/worker/storage/services/retention.service.ts:229-231 | a partition reported blocked held, when its guard looked, a row no later event has taken away |
| `RetentionService.Retention.RunFamily` | src/worker/storage/services/retention.service.ts:92-244 | every partition the family had is attempted as its state calls for, pending, then expired live, then expired detached ones, each oldest first, or left as it was; what an attempt leaves follows from how its own statements ended, which is what the script says in order; the report is of those attempts; other families are left alone; an attached partition is let go only past its own family's setting, and with no failing statement and nothing blocked exactly the pending ones and those past that setting are dropped |
| `RetentionService.ReportedForCause` | src/worker/storage/services/retention.service.ts:213-243 | a partition is reported blocked, deferred or dropped if and only if an attempt on it was kept back by its guard, ended in a detach that timed out, or ended in a drop that finished |
| `StatsRepository.Summarise` | src/core/stats/repositories/stats.repository.ts:153-197 | the summary of any rows says what the one merged aggregate of them says |
| `StatsRepository.SummaryIsOfRows` | src/core/stats/repositories/stats.repository.ts:153-197 | a summary of the merged aggregate is of the rows themselves: each outcome's count, the seconds by outcome, averages and extremes of the responding rows' times, and percentiles of their latencies |
| `StatsRepository.WindowIsItsTiles` | src/core/stats/window.ts:41-43 | the rows of a window add up tile by tile: minutes to hours, hours to days |
| `StatsRepository.ReadsAddUp` | src/core/stats/repositories/stats.repository.ts:121-137 | the three reads of a plan add up to the stored buckets of its tiles |
| `StatsRepository.WindowIsExact` | src/core/stats/repositories/stats.repository.ts:107-119 | after any run, a window's answer is the direct aggregate of the folded rows that started in it if and only if no bucket with rows has lost its partition |
| `StatsRepository.PercentileOfRows` | src/core/stats/repositories/stats.repository.ts:188-190 | a percentile of a window lies in the bucket of the true order statistic of its rows' latencies, cut down to their range, and splits that span as the rank splits the latencies between the bucket's edges |
| `StatsRepository.RecheckedPlanIsWhole` | src/core/stats/repositories/stats.repository.ts:102-106 | a plan that passes the check after the read has lost no bucket, provided retention left no gap |
| `StatsRepository.ServedPlanIsWhole` | src/core/stats/repositories/stats.repository.ts:102-106 | a plan whose buckets are all in partitions live after the read has lost none at the read either |
| `StatsRepository.StatsReader.RetainedFrom` | src/core/stats/repositories/stats.repository.ts:65-94 | the start of the oldest attached partition of each family |
| `StatsRepository.StatsReader.WindowStatsOf` | src/core/stats/repositories/stats.repository.ts:107-119 | the read with other sessions acting between its three statements: the exact cause of each error and exactly when it answers; when the partitions live after the read serve every bucket of the plan, or none went while an older one stayed, the answer's counts, seconds, averages, extremes and percentiles are those of the folded rows that started in the window |
| `PartitionHistory.ReachesParts` | src/worker/storage/services/retention.service.ts:226-238 | every catalogue, whatever its partitions' states, is reached by a run that folds a result started in any of its periods and then lets the partitions go |
| `RetentionGap.ExactIffNoneLosable` | src/core/stats/window.ts:26-30 | with given partitions every reachable database answers the window exactly, for every endpoint, if and only if no bucket of the plan lies in a partition that is gone and, with the others its rows need, was once there |
| `RetentionGap.ExactIffServed` | src/core/stats/repositories/stats.repository.ts:65-94 | knowing only the live partitions, the answer is exact whatever the history if and only if every hour and minute bucket of the plan lies in a live one |
| `RetentionGap.ReachesGap` | src/worker/storage/services/retention.service.ts:226-238 | for any result there is a run from the empty database that folds it and then detaches its minute partition while an older one stays |
| `RetentionGap.AcceptedButPartial` | src/core/stats/window.ts:26-30 | after such a run the window of that minute passes both checks and is answered wrongly |
| `RetentionPass.ReachesBeforeGap` | src/worker/storage/services/retention.service.ts:208-238 | for any result there is a run from the empty database that folds it, with two expired minute partitions and all four partitions live |
| `RetentionPass.GapPass` | src/worker/storage/services/retention.service.ts:208-244 | one pass from there, nobody else acting, whose first detach times out unmarked and whose second times out marked, leaves the gap: the window of that minute passes both checks and is answered wrongly |
| `Scheduling.NextRunIsFirstAfter` | src/worker/scheduler/repositories/endpoint-runtime.repository.ts:169-173 | the next slot is the first point of the slot's lattice after now: in the future, at most one interval away, an exact multiple on |
| `Scheduling.AdoptionIsBoundedAndOnce` | src/worker/scheduler/repositories/endpoint-runtime.repository.ts:61-87 | a new endpoint's row has its interval, its jittered first slot within that interval and the jitter bound, and no claim; a row there already is left alone, and adopting again changes nothing |
| `Scheduling.ReconcileSettles` | src/worker/scheduler/repositories/endpoint-runtime.repository.ts:94-142 | a claimed row that is unleased, not locked and spaced by another interval than its endpoint's moves to one interval after the slot last claimed; any other row is left alone however far it had caught up, and reconciling again changes nothing |
| `Scheduling.RunKeepsInv` | src/worker/scheduler/repositories/endpoint-runtime.repository.ts:149-217 | after any run of all workers' statements each runtime row speaks of its latest claim: slot, worker, lease and a later next slot |
| `Scheduling.ClaimsWhatIsDue` | src/worker/scheduler/repositories/endpoint-runtime.repository.ts:182-217 | after any run a claim takes rows of existing, enabled endpoints whose slot has come and that nobody leases or locks: the oldest the batch has room for, or all; each gets the lease, the logged slot and the next slot |
| `Scheduling.ClaimedWhenClaimable` | src/worker/scheduler/repositories/endpoint-runtime.repository.ts:184-194 | the log of an endpoint grows only in a claim that picked it while it was there, enabled, due, unleased and unlocked |
| `Scheduling.PausedIsNotClaimed` | src/worker/scheduler/repositories/endpoint-runtime.repository.ts:188-188 | while an endpoint stays paused, over any run, its log does not grow |
| `Scheduling.LatestIsReleased` | src/worker/scheduler/repositories/endpoint-runtime.repository.ts:245-312 | after any run recording the latest claim of a leased row clears the lease and sets the observation time, and abandoning it clears the lease alone |
| `Scheduling.SlotsStrictlyIncrease` | src/worker/scheduler/repositories/endpoint-runtime.repository.ts:182-217 | over whole runs an endpoint's claimed slots strictly increase, so no slot is ever logged twice |
| `Scheduling.FenceIsTheClaim` | src/worker/scheduler/repositories/endpoint-runtime.repository.ts:240-255 | ending a claim clears the lease only of that very claim; after a later claim the row is left as it was |
| `Scheduling.FenceNeverReturns` | src/worker/scheduler/repositories/endpoint-runtime.repository.ts:240-255 | a lease once cleared or taken over is never that claim's again, however late the release |
| `Scheduling.EndedStaysEnded` | src/worker/scheduler/scheduler.service.ts:192-245 | a claim whose probe is over is never probed again |
| `Scheduling.ObservationHasResult` | src/worker/scheduler/repositories/endpoint-runtime.repository.ts:290-312 | `last_probe_at` moves only in the step that stores that slot's result and clears that claim's lease |
| `Scheduling.ProbesEndInTime` | src/worker/scheduler/scheduler.service.ts:261-287 | whatever the lease, no worker is busy with a claim later than load budget, probe cap and slack after the claim's own `now`; both timers may fire late, and the slack pays for it |
| `Scheduling.NeverProbedTwiceAtOnce` | src/core/config/schema.ts:573-588 | with the configured lease rule no two claims of one endpoint are ever under way at once, in contact with it or not, both timers late included |
| `Scheduling.ShortLeaseOverlaps` | src/core/config/schema.ts:573-588 | with any shorter lease there is a run, no timer late, in which two workers are in contact with one endpoint at once |
| `Scheduling.LeaseRuleIsExact` | src/core/config/schema.ts:577-588 | mutual exclusion holds in every timely run if and only if the lease covers load budget, probe cap and slack |
| `Scheduling.NoDriftNoBacklog` | src/worker/scheduler/repositories/endpoint-runtime.repository.ts:169-204 | while an endpoint keeps its interval, paused or not, its slots stay on one lattice, each lattice cell holds at most one claim instant, and claims i to j span more than j - i - 1 intervals |
| `EndpointRuntimeRepository.Repository.Adopt` | src/worker/scheduler/repositories/endpoint-runtime.repository.ts:77-92 | exactly the endpoints without a runtime row get one, with their jittered first slot |
| `EndpointRuntimeRepository.Repository.Reconcile` | src/worker/scheduler/repositories/endpoint-runtime.repository.ts:124-147 | exactly the unlocked, unleased rows whose interval changed are re-derived |
| `EndpointRuntimeRepository.Repository.Pick` | src/worker/scheduler/repositories/endpoint-runtime.repository.ts:184-194 | as many due, unlocked rows of enabled endpoints as the batch allows, none younger than one left behind, and none left behind by a batch with room |
| `EndpointRuntimeRepository.Repository.Claim` | src/worker/scheduler/repositories/endpoint-runtime.repository.ts:182-227 | the statement moves, leases and logs exactly the rows picked so and returns their claims |
| `EndpointRuntimeRepository.Repository.Release` | src/worker/scheduler/repositories/endpoint-runtime.repository.ts:245-255 | the lease is cleared and the observation time set exactly when both conjuncts of the fence match, and the count says whether they did |
| `EndpointRuntimeRepository.Repository.Abandon` | src/worker/scheduler/repositories/endpoint-runtime.repository.ts:303-312 | the lease is cleared under the same fence and the observation time is left alone |
| `ResultRecorder.Recorder.Insert` | src/worker/storage/repositories/probe-result.repository.ts:17-24 | a row is stored unless its key is there already, and the row there stays |
| `ResultRecorder.Recorder.Transaction` | src/worker/scheduler/services/result-recorder.service.ts:64-80 | result and release commit together or not at all, the result even when the fence matches nothing |
| `ResultRecorder.Recorder.RecordAndRelease` | src/worker/scheduler/services/result-recorder.service.ts:55-90 | at most one row per attempt over all retries, stored if any transaction committed; how many attempts run, when they stop, and when the call succeeds |
| `ResultRecorder.CommitReleases` | src/worker/scheduler/services/result-recorder.service.ts:25-33 | a committed attempt stores the result and leaves the claim no lease to clear |
| `ResultRecorder.RetriesReleaseOnce` | src/worker/scheduler/services/result-recorder.service.ts:43-60 | of several attempts that committed behind lost acknowledgements only the first touches the runtime row, whatever others did to it since |
| `ProbeAttempt.RunOne` | src/worker/scheduler/scheduler.service.ts:192-245 | every way out of a claimed slot is one terminal write: result and release with an observation, an abandon that adds neither result nor observation time without one; a failed write leaves everything as other sessions made it |
| `SchedulerService.ClaimedKeyIsNew` | src/worker/scheduler/scheduler.service.ts:18-21 | the key of a claimed slot has never been logged before |
| `SchedulerService.PoolBounded` | src/worker/scheduler/services/probe-pool.service.ts:48-51 | over every run of ticks, completions and stop, with other workers at the same tables, no more probes run than the configured concurrency, and the pool's map names exactly those |
| `SchedulerService.TickArmsAgain` | src/worker/scheduler/scheduler.service.ts:115-152 | after any run a serving worker has its timer armed or a tick under way, and every way a tick can end arms it again; a stopping worker's timer is never armed |
| `SchedulerService.ClaimFillsRoom` | src/worker/scheduler/scheduler.service.ts:134-141 | a tick's claim takes the oldest claimable rows, as many as the batch size and the pool's room both allow |
| `SchedulerService.EveryRowStarts` | src/worker/scheduler/scheduler.service.ts:142-148 | after any run each claimed row is started, and what was running goes on |
| `SchedulerService.NothingStartsAfterStop` | src/worker/scheduler/scheduler.service.ts:401-407 | once the stop has awaited the last tick no probe starts |
| `SchedulerService.DrainSplits` | src/worker/scheduler/services/probe-pool.service.ts:94-117 | settled and still-running keys split what was in flight; the latter are exactly the probes still running, none without a timeout |
| `SchedulerService.ProbePool.Drain` | src/worker/scheduler/services/probe-pool.service.ts:94-117 | the drain's two answers in terms of the pool's own map |
| `SchedulerService.SchedulerService.BeforeClaim` | src/worker/scheduler/scheduler.service.ts:127-141 | after its awaits the tick claims only if not stopping and only as much as the pool has room for |
| `SchedulerService.SchedulerService.AfterClaim` | src/worker/scheduler/scheduler.service.ts:142-152 | every claimed row is started, then the tick ends, re-armed unless stopping |
| `SchedulerService.SchedulerService.OnSettled` | src/worker/scheduler/services/probe-pool.service.ts:67-82 | the handler of a probe that settled takes its key, and nothing else, out of the pool |
| `SchedulerService.SchedulerService.Stop` | src/worker/scheduler/scheduler.service.ts:395-405 | the timer is cleared and no tick is armed again; a second stop changes nothing |
| `RateLimiter.CountSeesRecent` | src/api/auth/repositories/auth-attempt.repository.ts:132-149 | a count sees every recent attempt since the account's last success that no sweep has taken |
| `RateLimiter.CountsStanding` | src/api/auth/repositories/auth-attempt.repository.ts:132-149 | a count is the number of the key's rows still there since an instant, without the succeeded ones for an account |
| `RateLimiter.SuccessClears` | src/api/auth/repositories/auth-attempt.repository.ts:97-120 | a success marks the picked row and deletes the account's rows it saw, and changes nothing else |
| `RateLimiter.SuccessResetsCount` | src/api/auth/repositories/auth-attempt.repository.ts:112-118 | after a success an account's count since any instant is the count over the rows committed since the success looked |
| `RateLimiter.NoSharedKey` | src/api/auth/repositories/auth-attempt.repository.ts:53-61 | two reservations past their locks share no key |
| `RateLimiter.LatestIsLatest` | src/api/auth/repositories/auth-attempt.repository.ts:103-110 | a success marks the address's one live failure that none is later than, by time and then by insertion, and marks nothing when there is none |
| `RateLimiter.WindowsAreCapped` | src/api/auth/repositories/auth-attempt.repository.ts:45-87 | under every interleaving, with timestamps in any order, no window of the configured length holds more admitted attempts of one address and scope than its limit, nor of one account between two successes |
| `RateLimiter.EarlySweepBreaksCap` | src/api/auth/repositories/auth-attempt.repository.ts:152-158 | a sweep one millisecond further ahead than allowed lets one attempt too many into a window, for every limit |
| `RateLimiter.PruningIsHarmlessIff` | src/core/config/schema.ts:505-510 | the cap holds in every run if and only if sweeps run no further ahead of a reservation's clock than retention exceeds the window |
| `RateLimiter.LocksNeverStickIff` | src/api/auth/repositories/auth-attempt.repository.ts:53-61 | some reservation under way can always take its next step if and only if at most one lock number is shared between an account and an address |
| `AuthAttemptRepository.AuthAttempts.Count` | src/api/auth/repositories/auth-attempt.repository.ts:132-149 | the loop counts the rows still there since an instant, failures only for an account |
| `AuthAttemptRepository.AuthAttempts.Reserve` | src/api/auth/repositories/auth-attempt.repository.ts:45-87 | one reservation with other sessions before each of its statements is a run of the atomic steps whose last one says why it ended so: admitted after every statement, its unsucceeded rows left; refused with as many of the scope's rows standing in the window as that scope's own limit, or failed at a lock another transaction held, no row left |
| `AuthAttemptRepository.AuthAttempts.MarkSucceeded` | src/api/auth/repositories/auth-attempt.repository.ts:97-120 | with other sessions between its two statements: the address's latest failure is marked, the account's rows the second one saw are gone, no other row changes, and both take effect at the commit |
| `AuthAttemptRepository.AuthAttempts.ReserveAfterSuccess` | src/api/auth/repositories/auth-attempt.repository.ts:45-120 | with nobody else about, a reservation after a success is not refused for the account |
| `AuthAttemptRepository.AuthAttempts.PruneBefore` | src/api/auth/repositories/auth-attempt.repository.ts:151-158 | exactly the rows before the cutoff go, and the count is how many were still there |
| `BodyCap.Concat` | src/worker/probing/utils/body-cap.ts:102-112 | the array filled chunk by chunk is the first `length` bytes of the chunks joined |
| `BodyCap.ReadCappedBody` | src/worker/probing/utils/body-cap.ts:60-99 | for any chunking the text is the first min(length, cap) bytes, truncated if and only if there were more, and what was held is at most the cap before the last chunk taken |
| `Assertions.PassesIffAll` | src/worker/probing/assertions/evaluate.ts:107-116 | stopping at the first failure passes exactly when every assertion passes |
| `Assertions.CappedPassIsSound` | src/worker/probing/assertions/evaluate.ts:27-98 | a pass on the capped read is a pass on the whole body; on a truncated read exactly lists of substrings found in the kept part pass |
| `Assertions.ProbeAssertions` | src/worker/probing/assertions/evaluate.ts:1-116 | of any chunked read under the cap: it passes if and only if every substring asked for occurs in the kept bytes, every forbidden one comes with a complete body without it, and every path with a complete body that parses and has the expected value there; a failure is the first assertion of which that is not so, with its own reason; a pass on the capped read is a pass on the whole body |
| `JsonPath.ParseJsonPath` | src/core/assertions/json-path-grammar.ts:65-79 | the loop returns the parse of the path, nothing for a path outside the pattern |
| `JsonPath.BareName` | src/core/assertions/json-path-grammar.ts:50-79 | a bare word is the path to its own key exactly when it is letters, digits, underscores and dashes |
| `JsonPath.ParsePrint` | src/core/assertions/json-path-grammar.ts:50-79 | every well-formed segment list reads back from its print, each index as its double, and as itself exactly when every index is a double already |
| `JsonPath.NothingIsSkipped` | src/core/assertions/json-path-grammar.ts:70-76 | the token scan of an accepted path passes over no character |
| `JsonPath.OneSpellingIff` | src/core/assertions/json-path-grammar.ts:20-22 | every accepted path that reads as this one is spelled as it is, the root and leading dot aside, if and only if each of its indexes is below 2^53, or below 2^54 and twice an odd number |
| `JsonPath.SegmentsDecideSpelling` | src/core/assertions/json-path-grammar.ts:20-22 | accepted paths spelled alike, the root and leading dot aside, have the same segments, and with such indexes the converse holds too |
| `JsonPath.OneNumeralIff` | src/core/assertions/json-path-grammar.ts:74-74 | a double is the nearest one to a single integer if and only if it is such a number |
| `JsonPath.LargeIndexesCollide` | src/core/assertions/json-path-grammar.ts:72-75 | any other double is also the nearest one to the integer after it |
| `JsonPath.SmallIsExact` | src/core/assertions/json-path-grammar.ts:74-74 | an index up to 2^53 is its own double, and no larger one rounds below 2^53 |
| `JsonValue.EqualIffSameValue` | src/worker/probing/assertions/json-path.ts:94-118 | structural equality holds exactly when the values are equal with objects read as maps |
| `JsonValue.IsEquivalence` | src/worker/probing/assertions/json-path.ts:80-93 | it is reflexive, symmetric and transitive |
| `JsonValue.KeyOrderIsIgnored` | src/worker/probing/assertions/json-path.ts:85-92 | an object with its keys in another order is equal |
| `JsonValue.ReadJsonPath` | src/worker/probing/assertions/json-path.ts:49-78 | the loop walks own keys and in-range indexes only, and misses otherwise |
| `JsonValue.ReadIsAt` | src/worker/probing/assertions/json-path.ts:49-78 | a read gives a value exactly when a trail of members under the path's names and elements at its indexes leads to it |
| `JsonValue.EqualValuesReadEqual` | src/worker/probing/assertions/json-path.ts:49-78 | equal values read equal along every path |
| `JsonValue.RoundingReadsTheSame` | src/worker/probing/assertions/json-path.ts:72-75 | rounding an index to a double never changes what is read |
| `RedirectRules.RewritesExactly` | src/worker/probing/utils/redirect-rules.ts:51-61 | the method changes exactly where the Fetch Standard changes it, and only to GET |
| `RedirectRules.OriginIsSchemeHostPort` | src/worker/probing/utils/redirect-rules.ts:63-74 | two URLs have one origin exactly when scheme, host and effective port agree |
| `RedirectRules.BodyHeadersInAnyCase` | src/worker/probing/utils/redirect-rules.ts:29-43 | a body header is one of the four names in any spelling of case |
| `RedirectRules.WithoutOneByOne` | src/worker/probing/utils/redirect-rules.ts:121-130 | header by header and in order, a body header goes and any other stays |
| `RedirectRules.UpperIsAnyCase` | src/worker/probing/utils/redirect-rules.ts:51-53 | the method the rules compare is the configured one in capital letters and no other text |
| `Probe.AttemptHop` | src/worker/probing/utils/probe.ts:233-360 | one hop's request and where it leads: a `Location` is looked for before the budget is, a malformed one is its own failure, a refused hop sends nothing |
| `Probe.HopsAreTheChain` | src/worker/probing/utils/probe.ts:188-206 | the hops taken are the only chain, each leading to the next, that ends in a verdict |
| `Probe.FollowRedirects` | src/worker/probing/utils/probe.ts:173-206 | the loop sends exactly the chain's requests, at most min(maxRedirects, cap) + 1: the first to the configured URL, each later one to the `Location` of a followable response resolved against the URL that response came from; the verdict's cause is told by the last response |
| `Probe.HeadersExactly` | src/worker/probing/utils/redirect-rules.ts:95-130 | configured headers go out in full, without body headers once the method changed, or not at all from the first hop off the original origin on |
| `Probe.MethodsExactly` | src/worker/probing/utils/probe.ts:343-355 | the method changes at most once, to GET, exactly where the standard says |
| `Probe.WhatIsSent` | src/worker/probing/utils/probe.ts:279-287 | what leaves the worker on each hop: which headers can appear, and when a body goes out and when not |
| `Probe.FollowedOnlyWhenAllowed` | src/worker/probing/utils/probe.ts:304-324 | redirects are followed only when asked for, followable and in budget; a spent budget never hides a response that is not to be followed |

## Left out

Assumptions the model makes:

- PostgreSQL itself: each statement is atomic and reads one snapshot and one `now()`, row and advisory locks last to the
  end of the transaction, transaction ids increase, and the snapshot's xmin is the least running id.
- No transaction inserts into a raw partition past its retention, nor is still running when one of its rows gets there
  (`src/core/config/schema.ts:611-621`): `Warehouse.Enabled` has it as the condition of inserts and of the clock.
- A claim's way to its worker, the lateness of its two timers and the teardown together fit the lease slack
  (`src/core/config/schema.ts:427-430`): `Scheduling.Timely`, used by the mutual exclusion theorems and no other. Load
  and probe themselves are bounded by those timers, which run at the database clock's rate.
- A dropped partition is not created again: what runs in production creates from the current period on
  (`src/worker/storage/services/partition.service.ts:44-54`).
- The `rollup_state` row exists. A missing one skips the rollup pass and blocks every drop.
- A sweep's clock runs ahead of a reservation's own timestamp by at most `skew`: `RateLimiter.Punctual`.

What the members state less of:

- Calendar.PeriodContains: the range limit of `Date` is not modelled.
- PartitionService.HourlyKeepsUpIff: for 1 to 12 months ahead, which is what the configuration allows.
- Percentile.Percentile: over the reals, so without floating-point rounding.
- Percentile.PercentileBracketsTruth: for latencies that are not negative, as durations are.
- StatsRepository.Summarise: every stored histogram has its 20 buckets, so the length check never skips one; averages
  are exact quotients.
- Aggregate.AggSplit: counts and sums are unbounded; the casts to `int` in the fold are not modelled as overflowing.
- StatsRepository.StatsReader.WindowStatsOf: that the buckets are served, or the partitions contiguous, is a hypothesis
  of its exactness: the code checks neither, and `RetentionPass.GapPass` breaks both.
- RetentionService.Retention.RunFamily: the raw, minute and hour families; the claim log's family has no guard and
  nothing that could be lost. Partitions are named by their bounds here; `PartitionService` ties names to bounds.
- Scheduling.NextRunIsFirstAfter: the quotient of two `numeric` values is exact; PostgreSQL rounds it past about sixteen
  significant digits.
- Scheduling.NoDriftNoBacklog: for a stretch in which the endpoint's interval is not edited and it is not deleted.
- SchedulerService.PoolBounded: the tick is a state machine over the code between its awaits; a probe's settling and the
  removal of its key are one step. Timer delays and log pacing are not modelled.
- RateLimiter.WindowsAreCapped: e-mail normalisation is not modelled.
- BodyCap.ReadCappedBody: text is bytes, so the replacement character a cut inside a UTF-8 sequence decodes to is not
  modelled; a stream that fails mid-read is not either.
- PartitionService.Partitions.EnsureRange: that tables hold every instant, for ranges within the years 100 to 9999, the
  only ones whose names read back.
- Assertions.ProbeAssertions: what a verdict rests on, for values in which no object names a key twice, which is what
  parsing yields.
- Assertions.CappedPassIsSound: substrings are compared as bytes, and `JSON.parse` is any function from bytes to values.
- JsonValue.EqualIffSameValue: for values in which no object names a key twice, which is what parsing yields; reference
  equality of shared objects is not distinguished from equality.
- JsonPath.SmallIsExact: an index past the largest double is a number here and `Infinity` in the source; both are past
  every array.
- RedirectRules.RewritesExactly: upper and lower case of ASCII letters only.
- RedirectRules.OriginIsSchemeHostPort: for schemes without a slash and ports without a colon, which is what URL parsing
  yields.
- Probe.FollowRedirects: `new URL` is any partial function, responses are arbitrary, and the deadline, certificates,
  phase timings and connections are not modelled.

Parts of the repository that are not modelled:

- Sockets, DNS, TLS, address filtering and failure classification: foreign calls and constant tables.
- Accounts, sessions, OAuth, password hashing and cookies: their guarantees are the database's and the libraries'.
- Controllers, schemas, the OpenAPI document, modules, health checks, logging and migrations: plumbing with easy
  members.
- `EndpointRuntimeRepository.release` outside the recorder: nothing calls it.
- The rate-limit service around the limiter: its window start and limits are `RateLimiter.Since` and
  `RateLimiter.Config.Limit`, and its retry hint is a constant.
- The retention pass around one family: trying the lock, and going through the families one after another.
