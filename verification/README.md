# pg_gobench: a verified model of the benchmark service

pg_gobench runs benchmark workloads against PostgreSQL under the control of a small service.
This project models the parts of it that are hard to get right and proves what they keep.

- **Run lifecycle** (`Coordinators.dfy`, `Lifecycle.dfy`, `Projections.dfy`, `Reachability.dfy`,
  `LateWorkers.dfy`, `ServiceAnswers.dfy`). Each critical section under the
  coordinator's lock is a function on the coordinator's fields and a method of a class proved to
  compute it. `Lifecycle` composes them with the calls of Start in flight, the waiting
  goroutines and the pools of all runs so far, as events in any order. Every run of the service
  projects to a run of each pool.
- **Worker pool** (`WorkerPool.dfy`, `PoolRuns.dfy`, `WorkerLoops.dfy`, `SplitAlter.dfy`,
  `ActiveRuns.dfy`). `activeRun` as a
  machine whose steps are the atomic sections of its goroutines, with every worker a phase
  machine; and as a class with the code's resize loops, worker loop, finish and alter, each
  proved to be transitions of the machine.
- **Shutdown** (`Shutdown.dfy`, `Fairness.dfy`, `Liveness.dfy`). A stopping run passes through
  stages. What it can still do is bounded exactly when its pool winds down, and from then on
  every event of the run lowers a weight. Before that workers may go on operating, so the whole
  stop ends only under fairness; `Liveness.StopTerminates` is stated over infinite behaviours, and
  assumes of them only that no actor which can always act is put off for ever.
- **Statistics** (`LatencyHistograms.dfy`, `RunStatistics.dfy`, `Samples.dfy`, `Sums.dfy`,
  `Accounting.dfy`). The constant-memory counters and histogram against the log of all operations, which the code never
  stores, and the log and samples against what RunOnce returned to the workers.
- **Workloads** (`Workload.dfy`, `MixedWorkloads.dfy`, `Ledger.dfy`). The generated ids against
  the seeding formulas, the mix of operations, and the ledger over interleaved transactions.
- **Options and error texts** (`Options.dfy`, `ErrorText.dfy`, `TextFields.dfy`), with the shared
  `Wrappers.dfy`.

Times are integers (nanoseconds), passed in where the code reads a clock. Percentiles, rates and
durations in seconds are exact reals. Two assumptions about the workload are built into
`WorkerPool.Enabled`: RunOnce returns one of the nine operation kinds, and a RunOnce that begins on
a cancelled context returns an error.

Where the obvious claim is false of the code, a run or an input that breaks it and the exact
condition are proved instead.

- A percentile can exceed the recorded maximum (`QuantileMayExceedMax`), exactly when
  `QuantileAboveMaxExactly` says.
- The teller ledger breaks with any mix but write-heavy (`TellerLedgerBreaks`,
  `TellerLedgerExactly`).
- A run that is over can have a worker left (`OverWithWorker`); a run gets workers after its wait
  group has drained exactly when an alter still resizes it (`LateWorkersExactly`).
- No measure falls at every event of a stop (`NoMeasureFalls`, `StoppingRolls`); one does, and the
  events left are bounded, exactly when the pool winds down (`BoundedExactly`).
- A target above one operation per nanosecond does not fit its interval (`IntervalExact`).

## Model

| member | source | states |
|---|---|---|
| `Lifecycle.InvOverRuns` | internal/benchmarkrun/coordinator.go:84-285 | in every state of every interleaving of start sections, runner returns, stops, alters, waiters and pool steps, the control, pool and report invariants hold |
| `Lifecycle.EventControl` | internal/benchmarkrun/coordinator.go:84-285 | every event keeps the control invariant: who is in flight, which handles are held, which fields are set, which contexts are cancelled |
| `Lifecycle.EventPools` | internal/benchrunner/runtime.go:42-224 | every event keeps the own invariant of every pool there has ever been, those of earlier runs too |
| `Lifecycle.EventFits` | internal/benchmarkrun/coordinator.go:116-157 | every event keeps the link between coordinator and pools: a pool is held until it has closed done, a woken waiter carries its final error, a held pool has the clients of the state |
| `Lifecycle.EventReports` | internal/benchmarkrun/coordinator.go:186-196 | every event keeps the reported sample adding up and the error texts compact |
| `Lifecycle.StaleGuardsNeverFire` | internal/benchmarkrun/coordinator.go:116-285 | exactly one starter or waiter is in flight iff the status is starting, running or stopping, none otherwise, and it holds the current run id, so the three stale-run guards never fire |
| `Lifecycle.CoordinatorOverRuns` | internal/benchmarkrun/coordinator.go:84-177 | a cancel handle iff active; running implies a run handle and a start time; a stop time iff terminal; an error only in failed; stopping iff the active run's context is cancelled |
| `Lifecycle.OneRunAtATime` | internal/benchmarkrun/coordinator.go:89-105 | a pool that has not closed done belongs to the current run and the status is active; every worker of any other pool is on a cancelled context |
| `Lifecycle.ClientsAgreeOverRuns` | internal/benchmarkrun/coordinator.go:138-157 | while a run is held its configured clients are those of the state's options, and until its stop context is cancelled it tracks exactly that many workers |
| `Lifecycle.ResultsConserved` | internal/benchmarkrun/results.go:54-73 | in every reachable state the reported totals add up and the nine operation rates add up to the TPS |
| `Lifecycle.TerminalFrozen` | internal/benchmarkrun/coordinator.go:186-196 | a terminal state and its results stay the same until the next accepted start, whatever live sample is offered |
| `Lifecycle.StopOutcome` | internal/benchmarkrun/coordinator.go:255-285 | once a run that was handed over is stopping, it is still stopping or Stopped with an empty error, whatever Wait returns |
| `Lifecycle.RunOutcome` | internal/benchmarkrun/coordinator.go:255-285 | a run that ends is Stopped iff it was stopping or its first finish brought no error, otherwise Failed with that first error compacted; the sample kept is the pool's |
| `Lifecycle.StartOutcome` | internal/benchmarkrun/coordinator.go:224-253 | a failed start ends Stopped iff it was stopping and the error is a cancellation, otherwise Failed with the compacted error; options kept, sample zero |
| `Lifecycle.OptionsOverRun` | internal/benchmarkrun/coordinator.go:138-157 | between two accepted starts only clients and target_tps of the options ever change, and the run id does not |
| `Lifecycle.ValidOptionsOverRuns` | internal/benchmark/options.go:136-154 | if every start carries valid options, the options of every non-idle state validate |
| `Lifecycle.ValidIsRunnable` | internal/benchrunner/runner.go:62-79 | the runner's own guards refuse no valid options |
| `ServiceAnswers.StartAnswers` | internal/benchmarkrun/coordinator.go:89-105 | an accepted start: a new run id, status starting, exactly the given options, no times, no error, one call in flight on a live context |
| `ServiceAnswers.CommitAnswers` | internal/benchmarkrun/coordinator.go:116-135 | a commit: the run is held, running unless it is being stopped, with the options and this start time, and one waiter |
| `ServiceAnswers.FailAnswers` | internal/benchmarkrun/coordinator.go:224-253 | a failed start ends terminal, with no start time and with the time of the failure as stop time |
| `ServiceAnswers.StopAnswers` | internal/benchmarkrun/coordinator.go:159-177 | a stop of an active run makes it stopping and cancels its context, and changes nothing else; any other stop changes nothing at all |
| `ServiceAnswers.StartingShowsNothing` | internal/benchmarkrun/coordinator.go:89-105 | in every reachable state that is active and holds no run the results are all zero and empty, whatever earlier runs recorded |
| `ServiceAnswers.PaceOverRuns` | internal/benchrunner/runtime.go:255-272 | in every reachable state, until its gate closes, the run held is paced at the longest interval that fits the state's target_tps, and not at all without one |
| `ServiceAnswers.ResultsShow` | internal/benchmarkrun/results.go:54-73 | each figure of the results is the one of the live sample if a run is held and of the kept one otherwise; status, options, times and error are the state's; each rate is its own count per second |
| `ServiceAnswers.RatesExactly` | internal/benchmarkrun/sample.go:40-99 | tps and each of the nine rates times the elapsed seconds is its own count, and zero when no time has passed |
| `ServiceAnswers.ClientsShown` | internal/benchmarkrun/coordinator.go:186-196 | while a run is held the results show its live workers as active and the state's clients as configured |
| `ServiceAnswers.SampleOverRuns` | internal/benchrunner/stats.go:205-250 | in every reachable state the sample of every run counts exactly the operations returned to its workers, recorded, and ended after the warm-up from its hand-over |
| `ServiceAnswers.ResultsOverRuns` | internal/benchmarkrun/results.go:54-73 | so do the results while the run is held, figure by figure |
| `ServiceAnswers.KeptOverRuns` | internal/benchmarkrun/coordinator.go:263-285 | so does the sample kept when the run ends |
| `Shutdown.PoolStepWeight` | internal/benchrunner/runtime.go:124-224 | while a pool winds down every step of every goroutine lowers its weight |
| `Shutdown.WindsDownStays` | internal/benchrunner/runtime.go:189-224 | a pool that winds down goes on winding down, whatever step it takes |
| `Shutdown.PoolCanStep` | internal/benchrunner/runtime.go:124-224 | after finish, a pool with a worker left or with done still open always has an enabled step |
| `Shutdown.BoundedExactly` | internal/benchrunner/runtime.go:189-215 | the events a stopping, handed-over run can still make, however the service goes on, are bounded iff its stop context is cancelled or every worker on a live context is calling finish or carries an uncounted failure |
| `Shutdown.NoMeasureFalls` | internal/benchrunner/runtime.go:189-215 | whatever measure of the service one takes, a stopping run that is not winding down can come by its own events to one that does not lower it |
| `Reachability.StoppingRolls` | internal/benchmarkrun/coordinator.go:159-177 | for all options the runner accepts, a reachable stopping run, handed over, whose further events no number bounds |
| `Shutdown.StageEnds` | internal/benchmarkrun/coordinator.go:107-135 | each stage of a stopping run has one event, enabled throughout the stage, that ends it |
| `Shutdown.StageNeverRises` | internal/benchmarkrun/coordinator.go:159-177 | no event of the service takes a stopping run back to an earlier stage |
| `Shutdown.WindingEvent` | internal/benchrunner/runtime.go:124-138 | while winding down every event of the run lowers its weight or stops it cleanly, and every other event leaves the weight alone |
| `Shutdown.NeverStuck` | internal/benchmarkrun/coordinator.go:255-262 | while a handed-over run is stopping some event of it is always enabled |
| `Shutdown.ShutdownTerminates` | internal/benchmarkrun/coordinator.go:159-177 | once winding down, in any run, the run makes at most Weight more events before it is Stopped with an empty error, and stays so until the next start |
| `Shutdown.StoppingStartsNoWorker` | internal/benchmarkrun/coordinator.go:138-157 | once stopping no alter and no start is accepted, and no event starts a worker in any pool |
| `Liveness.NeverRises` | internal/benchmarkrun/coordinator.go:159-177 | no event raises the measure (stage, weight) of a stopping run |
| `Liveness.ActorCanAct` | internal/benchrunner/runtime.go:106-138 | in every stopping state the actor the run waits for can act |
| `Liveness.ActorLowers` | internal/benchrunner/runtime.go:106-138 | every act of that actor lowers the measure or ends the stopping |
| `Liveness.StopTerminates` | internal/benchmarkrun/coordinator.go:159-177 | in every weakly fair infinite behaviour a stopping run reaches Stopped or Failed, and Stopped with an empty error if it had been handed over |
| `Liveness.FairStopExists` | internal/benchmarkrun/coordinator.go:224-253 | for all options, a weakly fair behaviour with a stopping run |
| `Coordinators.Coordinator.constructor` | internal/benchmarkrun/coordinator.go:59-74 | a new coordinator is the initial state of the lifecycle |
| `Coordinators.Coordinator.StartBegin` | internal/benchmarkrun/coordinator.go:89-105 | refused iff a run is active, changing nothing; otherwise exactly the first-section transition |
| `Coordinators.Coordinator.StartCommit` | internal/benchmarkrun/coordinator.go:116-135 | exactly the commit transition, and a waiter is started iff the run id is current |
| `Coordinators.Coordinator.StartFailed` | internal/benchmarkrun/coordinator.go:224-253 | exactly the failed-start transition |
| `Coordinators.Coordinator.Stop` | internal/benchmarkrun/coordinator.go:159-177 | exactly the stop transition, cancelling the held context iff starting or running |
| `Coordinators.Coordinator.Alter` | internal/benchmarkrun/coordinator.go:138-157 | refused iff not running or the options refuse, changing nothing; otherwise both the state's options and the run are altered, and the run never refuses |
| `Coordinators.Coordinator.RunFinished` | internal/benchmarkrun/coordinator.go:263-285 | exactly the run-ended transition, keeping the sample of the log at the time of the run's own clock |
| `Coordinators.Coordinator.GetResults` | internal/benchmarkrun/results.go:54-73 | the results of the live sample if a run is held, of the kept one otherwise |
| `Coordinators.NormalizedExactly` | internal/benchmarkrun/results.go:67-73 | compacting the already compact error again changes nothing: exactly a bare cancellation of a clean stop is hidden |
| `WorkerPool.StepInv` | internal/benchrunner/runtime.go:94-224 | every step of every goroutine keeps the pool invariant: tracked within live, live below nextID, active clients equal to the live count, untracked live workers cancelled, all configured clients tracked until finish |
| `WorkerPool.AlteredInv` | internal/benchrunner/runtime.go:73-92 | an accepted alter keeps the invariant, also after a finish |
| `PoolRuns.InvOverRuns` | internal/benchrunner/runtime.go:42-224 | the invariant holds in every state of every interleaving of resizes, worker steps, watchers and finishes |
| `WorkerPool.StoppedInv` | internal/benchrunner/runtime.go:219-224 | stopping a worker keeps the invariant and the saturating decrement of active clients never saturates |
| `WorkerPool.KeepsSmallestUnique` | internal/benchrunner/runtime.go:151-167 | which ids a shrink keeps is determined by how many: the smallest |
| `WorkerPool.ShrunkInv` | internal/benchrunner/runtime.go:151-167 | a shrink that keeps the smallest ids and cancels the others keeps the whole invariant |
| `WorkerPool.DrainsInv` | internal/benchrunner/runtime.go:124-128 | the wait group drains only after finish has cancelled the stop context |
| `PoolRuns.FirstFinishWins` | internal/benchrunner/runtime.go:130-138 | from the first finish on, in every later state of the run, the final error is the one it was given |
| `PoolRuns.FirstCallerDecides` | internal/benchrunner/runtime.go:106-138 | over any run the first of the parent watcher, the duration watcher and a worker to call finish decides the final error for good: the cancellation, none, or the worker's error; none iff it was the duration |
| `PoolRuns.FinishBegan` | internal/benchrunner/runtime.go:130-138 | a finished run was finished by one such call, which gave it its error |
| `PoolRuns.DoneAfterFinish` | internal/benchrunner/runtime.go:124-138 | done closes only after a finish, and a worker live then was started after the wait group drained and is on a cancelled context |
| `LateWorkers.StartsWorkersExactly` | internal/benchrunner/runtime.go:140-150 | in every good state of the service an event starts a worker in a pool iff it is an alter of that run to more clients than it tracks |
| `LateWorkers.LateWorkersExactly` | internal/benchrunner/runtime.go:140-150 | from the draining of a run's wait group on, no worker is started iff no alter of that run gives a number of clients; until then it has none, and those it gets are on a cancelled context |
| `LateWorkers.KeptActiveClients` | internal/benchmarkrun/coordinator.go:263-285 | the active clients in the results of an ended run are the late workers that have not left, none iff all have left, and none if no alter resized the run after its wait group had drained |
| `LateWorkers.OverWithWorker` | internal/benchmarkrun/coordinator.go:138-157 | for all valid options with one client, a reachable Stopped run with a worker still active, which its results show |
| `PoolRuns.FinishIsSourced` | internal/benchrunner/runtime.go:189-215 | the final error of any run is none, the cancellation, or the error of a failure that came uncounted on a live context |
| `PoolRuns.CountedErrorsNeverEndRun` | internal/benchrunner/operation_error.go:24-34 | over any run with any alters in which all failures are counted or come on a cancelled context, no worker carries a failure towards finish, and the run ends with no error or with the cancellation |
| `PoolRuns.FatalEndsWorker` | internal/benchrunner/runtime.go:205-214 | over any run a worker that met an uncounted failure on a live context never operates again and does not leave before its context is cancelled |
| `PoolRuns.FollowsOverRun` | internal/benchrunner/stats.go:87-98 | from the finish of the statistics on, over any run, the end time stays, the log only grows, and only operations recorded later change the latest error |
| `PoolRuns.ElapsedFrozen` | internal/benchrunner/stats.go:205-213 | over any run of a pool the elapsed time stays the same from its finish on |
| `Projections.RunProjects` | internal/benchmarkrun/coordinator.go:107-135 | every run of the service is, from the hand-over of a run on, a run of that run's pool |
| `Projections.ElapsedFrozen` | internal/benchrunner/stats.go:205-213 | over any run of the service the elapsed time of a run stays the same from its finish on |
| `Projections.StopHidesEarlierErrors` | internal/benchmarkrun/results.go:67-73 | after a stop in which the parent watcher is the first to finish the run, the results show no error iff no failure was recorded after the statistics were finished, but for failures that read like nothing or like a cancellation |
| `WorkerPool.IntervalExact` | internal/benchrunner/runtime.go:264-271 | the pacing interval is the longest whole number of nanoseconds that fits the target into a second, and it fits iff the target is at most one per nanosecond |
| `WorkerPool.FirstResize` | internal/benchrunner/runtime.go:42-71 | resizing the empty run to the configured clients gives the initial pool |
| `SplitAlter.SplitAlterIsAtomic` | internal/benchrunner/runtime.go:73-92 | an alter whose parts under the gate, statistics and run locks have any pool steps between them ends, but for the ticker, as the whole alter right after those steps |
| `SplitAlter.TunedStep` | internal/benchrunner/runtime.go:94-224 | no step of a goroutine depends on the configured clients or the ticker, and each commutes with setting them |
| `WorkerLoops.RoundIsPlayed` | internal/benchrunner/runtime.go:189-215 | a round of the worker loop that nothing interrupts is the play of its steps in the pool machine, each enabled when it comes |
| `WorkerLoops.StaysExactly` | internal/benchrunner/runtime.go:189-215 | a worker is still there after its rounds iff the gate always let it pass and every operation succeeded, or failed counted while its context was not cancelled |
| `WorkerLoops.LoopRecords` | internal/benchrunner/runtime.go:196-204 | rounds that go on are all recorded, in order, each entry with the kind, latency, completion time and error text of its outcome, and change nothing but the statistics |
| `WorkerLoops.RoundExactly` | internal/benchrunner/runtime.go:189-215 | one round in terms of what it meets: the log grows by the outcome, field by field, unless the gate failed or the operation failed on a cancelled context; the run is finished, with that error, by a gate failure or an uncounted failure on a live context only; the worker stays iff it succeeded or failed counted on a live context |
| `Accounting.LogIsReturned` | internal/benchrunner/runtime.go:198-204 | over any run the log is, entry by entry and field by field, what RunOnce last returned to the recording workers |
| `Accounting.OperationsConserved` | internal/benchrunner/runtime.go:198-215 | over any run each success returned is logged or still waits to be; each failure is logged, waits, or was dropped at the first check on a cancelled context |
| `Accounting.SampleOfRun` | internal/benchrunner/stats.go:205-250 | over any run totals, successes, failures, nine kinds, count, sum, average, least, greatest, percentiles and buckets of a sample are those of the recorded operations that ended at or after start plus warm-up |
| `Accounting.ElapsedWhileRunning` | internal/benchrunner/stats.go:205-216 | until the finish the elapsed time runs from the end of the warm-up to now, and is zero before it |
| `Accounting.ElapsedAfterFinish` | internal/benchrunner/stats.go:205-216 | from then on it ends at the time of the finish |
| `WorkerLoops.GoneInv` | internal/benchrunner/runtime.go:178-181 | a worker leaving on a cancelled context keeps the invariant and takes one off the active clients |
| `ActiveRuns.DescendingIDs` | internal/benchrunner/runtime.go:151-155 | the ids listed are exactly the keys, in strictly descending order |
| `ActiveRuns.ActiveRun.constructor` | internal/benchrunner/runtime.go:42-71 | a new run is the initial pool for its options, and satisfies the invariant |
| `ActiveRuns.ActiveRun.StartWorkerLocked` | internal/benchrunner/runtime.go:169-177 | one more tracked and active worker, with the next id |
| `ActiveRuns.ActiveRun.ResizeWorkers` | internal/benchrunner/runtime.go:140-167 | the grow and shrink loops reach the target exactly: new ids from nextID on, or the smallest ids kept and the others cancelled |
| `ActiveRuns.ActiveRun.GrowWorkers` | internal/benchrunner/runtime.go:146-148 | the grow loop starts exactly the missing workers |
| `ActiveRuns.ActiveRun.ShrinkWorkers` | internal/benchrunner/runtime.go:151-167 | the shrink loop keeps exactly the target number of smallest ids and cancels exactly the rest |
| `ActiveRuns.ActiveRun.Alter` | internal/benchrunner/runtime.go:73-92 | refuses exactly what the option check refuses, changing nothing; otherwise the pool is altered and the invariant kept |
| `ActiveRuns.ActiveRun.Leave` | internal/benchrunner/runtime.go:178-181 | the worker is gone, the invariant kept, and the active clients go down by exactly one |
| `ActiveRuns.ActiveRun.WorkerRound` | internal/benchrunner/runtime.go:189-215 | one round of the loop: what it records, whether it finishes the run and with which error, whether it leaves |
| `ActiveRuns.ActiveRun.WorkerLoop` | internal/benchrunner/runtime.go:189-215 | the loop over any rounds is the fold of its rounds up to the one that leaves |
| `ActiveRuns.ActiveRun.FinishRun` | internal/benchrunner/runtime.go:130-138 | the first call is the whole finish, every later one changes nothing |
| `ActiveRuns.ActiveRun.Wait` | internal/benchrunner/runtime.go:94-100 | once done is closed, the error is the one the first finish was given |
| `ActiveRuns.ActiveRun.Sample` | internal/benchrunner/runtime.go:102-104 | the sample is that of the log of all recorded operations |
| `LatencyHistograms.BuildLatencyBucketBounds` | internal/benchrunner/stats.go:184-199 | the four loops produce the closed form of the 320 bounds, the last being ten seconds |
| `LatencyHistograms.SearchBucket` | internal/benchrunner/stats.go:127-129 | the binary search picks the bucket a linear scan picks |
| `LatencyHistograms.BucketExactly` | internal/benchrunner/stats.go:127-129 | a bucket is that of a latency iff its bound is the first that is at least the latency, or there is none and it is the overflow bucket |
| `LatencyHistograms.LatencyHistogram.constructor` | internal/benchrunner/stats.go:116-121 | an empty histogram stands for the empty recording |
| `LatencyHistograms.LatencyHistogram.Record` | internal/benchrunner/stats.go:123-139 | counts, total, sum, min and max are those of the recording with the clamped latency appended |
| `LatencyHistograms.LatencyHistogram.Quantile` | internal/benchrunner/stats.go:159-182 | the answer has at least the percentile's share of the recording at or below it, and no smaller bucket bound has |
| `LatencyHistograms.RankWalk` | internal/benchrunner/stats.go:167-181 | the walk returns the bound of the first bucket whose cumulative count reaches the rank, the maximum past the last bound |
| `LatencyHistograms.WalkTargetStops` | internal/benchrunner/stats.go:167-181 | for the counts of any recording that bucket is the one of the nearest-rank latency |
| `LatencyHistograms.LatencyHistogram.MetricsSnapshot` | internal/benchrunner/stats.go:141-157 | every exported cumulative count is the number of recorded latencies at most its bound, with the true count and sum |
| `LatencyHistograms.CumulativeBuckets` | internal/benchrunner/stats.go:141-157 | the accumulating loop yields for each bound the number of latencies at most that bound |
| `LatencyHistograms.HistogramAppend` | internal/benchrunner/stats.go:123-139 | the incremental update is the histogram of the longer recording |
| `LatencyHistograms.WalkStops` | internal/benchrunner/stats.go:167-177 | the cumulative count reaches the rank at a bucket iff the rank-th smallest latency lies in that bucket or an earlier one |
| `LatencyHistograms.WalkReturnsExactly` | internal/benchrunner/stats.go:167-181 | the walk returns inside its loop iff the rank is at most the number of recordings |
| `LatencyHistograms.QuantileExactly` | internal/benchrunner/stats.go:159-182 | for every recording and percentile in (0, 1] the answer is the one bucket bound, or overflowing maximum, with at least that share of the latencies at or below it and fewer at or below any smaller bound |
| `LatencyHistograms.QuantileRefinesNearestRank` | internal/benchrunner/stats.go:159-182 | the result is the bucket bound of the latency v whose rank is the least whole number at least percentile times count, in any sorted arrangement: never below v, within max(1 ms, v/10) up to ten seconds, the recorded maximum above |
| `LatencyHistograms.BoundsExactly` | internal/benchrunner/stats.go:184-199 | the bounds are exactly the whole milliseconds to 100, then multiples of 5 to 500, of 10 to 1000 and of 100 to 10000 |
| `LatencyHistograms.BoundGap` | internal/benchrunner/stats.go:184-199 | every bucket is at most a millisecond or a tenth of its lower bound wide |
| `LatencyHistograms.OverflowExactly` | internal/benchrunner/stats.go:184-199 | a latency overflows iff it is above ten seconds |
| `LatencyHistograms.QuantileMonotone` | internal/benchrunner/stats.go:159-182 | min <= lower percentile <= higher percentile, also across the overflow bucket |
| `LatencyHistograms.QuantileMayExceedMax` | internal/benchrunner/stats.go:175-177 | one half-millisecond sample has a median of one millisecond, above the recorded maximum |
| `LatencyHistograms.QuantileAboveMaxExactly` | internal/benchrunner/stats.go:175-180 | a percentile exceeds the recorded maximum iff its latency shares the maximum's bucket and the maximum lies strictly below that bucket's bound |
| `LatencyHistograms.BucketsCumulative` | internal/benchrunner/stats.go:141-157 | bounds and cumulative counts are non-decreasing and no count exceeds the total |
| `LatencyHistograms.HistogramOrderIndependent` | internal/benchrunner/stats.go:123-139 | total, sum, min, max, all buckets and all quantiles depend only on the multiset of latencies |
| `RunStatistics.RunStats.constructor` | internal/benchrunner/stats.go:32-39 | new statistics stand for the empty log |
| `RunStatistics.RunStats.RecordOperation` | internal/benchrunner/stats.go:64-85 | counters and histogram after the call are those of the log with the operation appended; only operations after warm-up are measured |
| `RunStatistics.RunStats.FinishRun` | internal/benchrunner/stats.go:87-98 | the first finish fixes the end time, an error always becomes the latest |
| `RunStatistics.RunStats.TakeSample` | internal/benchrunner/stats.go:205-250 | the sample computed from counters and histogram is the sample of the whole log |
| `RunStatistics.CountersAppend` | internal/benchrunner/stats.go:64-85 | the incremental counters are those of the longer log |
| `RunStatistics.KindsTogether` | internal/benchrunner/stats.go:79-84 | the nine per-kind counters together count the measured operations of valid kind |
| `RunStatistics.Conservation` | internal/benchrunner/stats.go:205-250 | total = successful + failed = histogram count = completions after warm-up, and with valid kinds = the nine counts, whose rates add up to the TPS |
| `RunStatistics.PercentilesOrdered` | internal/benchrunner/stats.go:219-227 | min <= p50 <= p90 <= p95 <= p99 in every sample with measured operations |
| `RunStatistics.OrderIndependent` | internal/benchrunner/stats.go:64-85 | any two orders of the same completions give the same sample but for the latest error |
| `Samples.RatesSum` | internal/benchmarkrun/sample.go:40-99 | over the reals the nine operation rates add up to the rate of the nine counts together |
| `Ledger.LedgerOverRuns` | internal/benchrunner/workload_transaction.go:36-93 | from a freshly seeded store, after any interleaving of committed and aborted transactions, each account balance is the sum of its history amounts, under write-heavy each teller balance too, and every history row names seeded ids of one branch |
| `Ledger.TellerLedgerExactly` | internal/benchrunner/workload_transaction.go:65-78 | the teller ledger holds iff the mix is write-heavy or nothing has committed |
| `Ledger.TellerLedgerBreaks` | internal/benchrunner/workload_transaction.go:65-78 | at every scale and with every mix but write-heavy, a run of one committed transaction that breaks the teller ledger |
| `Ledger.MoneyOverRuns` | internal/benchrunner/workload_transaction.go:36-93 | in every interleaving all account balances together are all history amounts together |
| `Ledger.ScriptTransfers` | internal/benchrunner/workload_transaction.go:36-93 | the writes of iteration n do what the arithmetic of its account, teller, branch and amount says, and nothing else |
| `Ledger.HistoryIsCommits` | internal/benchrunner/workload_transaction.go:80-90 | over any run the history is the committed iterations in the order of their commits, one row each, with the ids, amount and note of the iteration in plain arithmetic |
| `Ledger.RowsExactly` | internal/benchrunner/workload_transaction.go:80-90 | over any run an iteration has a row iff it has committed, and no two rows are of one iteration |
| `Ledger.AccountTouchedExactly` | internal/benchrunner/workload_transaction.go:61-63 | over any run an account is named in the history iff an iteration congruent to it has committed |
| `Ledger.CommitKeepsLedger` | internal/benchrunner/workload_sql.go:24-51 | one committed transaction keeps the ledger at every scale and iteration |
| `Ledger.ScriptEffect` | internal/benchrunner/workload_transaction.go:61-90 | the writes of one transaction, applied in order: the account, under write-heavy the teller, and one history row, all by the same amount |
| `Ledger.TransactionWorkload.RunTransaction` | internal/benchrunner/workload_transaction.go:36-93 | succeeds iff the mix is known and every statement it issues succeeds, fails with the error of the first that fails, and on success leaves exactly the mix's writes pending |
| `Ledger.TransactionWorkload.RunOnce` | internal/benchrunner/workload_sql.go:24-51 | iteration n, if applied, adds n mod 97 + 1 to account (n - 1) mod accounts + 1, under write-heavy to its teller, and appends one row with these ids; otherwise nothing changes; succeeds iff begin, the statements and commit do; every call takes a new iteration |
| `Workload.AccountAgrees` | internal/benchrunner/workload.go:66-72 | at every scale and iteration the account is seeded and belongs to the iteration's branch by the seeding formula |
| `Workload.TellerAgrees` | internal/benchrunner/workload.go:74-81 | at every scale and iteration the teller is seeded, belongs to the branch, and is not clamped |
| `Workload.EveryAccountReached` | internal/benchrunner/workload.go:66-68 | every seeded account is the account of some iteration |
| `Workload.RangeReadSelectsTen` | internal/benchrunner/workload_read_write.go:31-37 | every range read selects exactly ten seeded accounts, the branch's first ten; the end clamp never fires |
| `Workload.TransactionRangeSelectsFive` | internal/benchrunner/workload_transaction.go:46-56 | the range read of every read-heavy transaction selects exactly five seeded accounts |
| `Workload.RangeRowsAre` | internal/benchrunner/workload_sql.go:63-74 | k strides from a branch's own id select exactly the k + 1 accounts of the branch, in order |
| `Workload.Amount` | internal/benchrunner/workload.go:91-93 | every amount is between 1 and 97 |
| `MixedWorkloads.AnyHundredExact` | internal/benchrunner/workload_read_write.go:91-97 | any one hundred consecutive iterations contain exactly readPercent reads |
| `MixedWorkloads.PrefixDrift` | internal/benchrunner/workload_read_write.go:91-97 | 100 times the reads of any prefix is at most 100 - p below and (p - 1)(100 - p) above p times its length |
| `MixedWorkloads.PrefixDriftSymmetric` | internal/benchrunner/workload_read_write.go:91-97 | the drift of any prefix is at most p(100 - p) either way |
| `MixedWorkloads.DriftReachesTop` | internal/benchrunner/workload_read_write.go:91-97 | the upper end of the drift is attained, at p - 1 iterations |
| `MixedWorkloads.DriftReachesBottom` | internal/benchrunner/workload_read_write.go:91-97 | the lower end of the drift is attained, at 99 iterations |
| `MixedWorkloads.ReadsClosedForm` | internal/benchrunner/workload_read_write.go:91-97 | the reads of every prefix in closed form |
| `MixedWorkloads.MixOverRuns` | internal/benchrunner/workload_read_write.go:16-97 | in every interleaving of workers, nested counters and calls in flight add up to the outer counter, the reads are those prescribed, and point/range and insert/update differ by at most one |
| `MixedWorkloads.ReadWorkload.RunOnce` | internal/benchrunner/workload_read_write.go:16-22 | the point and range reads run so far add up to the counter and never differ by more than one, a point read first |
| `MixedWorkloads.WriteWorkload.RunOnce` | internal/benchrunner/workload_read_write.go:50-56 | the inserts and updates run so far add up to the counter and never differ by more than one, an insert first |
| `MixedWorkloads.MixedWorkload.RunOnce` | internal/benchrunner/workload_read_write.go:91-97 | the nested counters stay the prescribed split of the outer one, and the kind is that of the nested counter |
| `Options.DecodeRoundTrip` | internal/benchmark/options.go:70-121 | spelling all options out decodes to them iff they are valid, a mixed profile has a percentage and a transaction profile a mix |
| `Options.DecodeEmpty` | internal/benchmark/options.go:70-121 | the empty payload decodes to scale 10, one client, 60 seconds, 10 of warm-up, no reset, mixed with 80 percent reads |
| `Options.DecodeKeeps` | internal/benchmark/options.go:70-121 | every given field is kept and every other is its default, the read percentage and the mix only for their profile |
| `Options.FirstViolation` | internal/benchmark/options.go:173-216 | the error is that of the first check in order that the options violate, and there is none iff they violate none |
| `Options.DecodedIsValid` | internal/benchmark/options.go:70-121 | decoded options are valid and a mixed profile always carries a percentage |
| `Options.AlterExactly` | internal/benchmark/options.go:136-154 | an alter of valid options is accepted iff the request is valid and leaves a lock profile two clients; the result is valid and differs at most in clients and target_tps |
| `Options.AlterHistory` | internal/benchmark/options.go:136-154 | after any history of requests the options are the initial ones with the last accepted values |
| `ErrorText.FieldsOfJoin` | internal/benchrunner/stats.go:259-265 | splitting undoes joining for every list of nonempty fields without white space |
| `TextFields.SpaceExactly` | internal/benchrunner/stats.go:259-265 | white space is exactly the UTF-8 encodings of the code points with the Unicode property White_Space |
| `TextFields.FieldsRecovered` | internal/benchrunner/stats.go:259-265 | splitting finds the fields of every text, whatever white space precedes, separates or follows them |
| `TextFields.EveryTextIsSpaced` | internal/benchrunner/stats.go:259-265 | and every byte sequence is such a text |
| `ErrorText.CutExactly` | internal/benchrunner/stats.go:259-265 | a joined text of more than 160 bytes keeps its first 157 bytes, followed by three dots; any other is kept whole |
| `ErrorText.CompactIdempotent` | internal/benchmarkrun/results.go:67-73 | compacting twice is compacting once, for every byte sequence |
| `ErrorText.CompactExactly` | internal/benchmarkrun/coordinator.go:287-293 | compacted texts are exactly those of at most 160 bytes with only single inner blanks, the fixed points of compaction |
| `ErrorText.CompactFixesExactly` | internal/benchrunner/stats.go:259-265 | compaction leaves a text alone iff it is at most 160 bytes and its white space is single inner blanks |
| `ErrorText.CompactKeepsFields` | internal/benchrunner/stats.go:259-265 | a text that is not cut keeps all its fields in order |
| `ErrorText.Compact` | internal/benchrunner/stats.go:259-265 | at most 160 bytes |
| `ErrorText.CanceledIsCompact` | internal/benchmarkrun/results.go:67-73 | the text of a cancellation is compact as it is |

## Left out

- HTTP routing, process start-up, configuration files, the database wrapper, the metrics text, the HTML page and deployment files.
- JSON text and struct tags: options start from decoded payloads, records of optional fields.
- SQL text, schema, indexes and drivers: the store is abstract, with atomic commit; seeding is the id and branch formulas into empty tables.
- Floating-point rounding, and overflow of int64 and uint64: rank, seconds and rates are reals, counters and ids are unbounded, which agrees with the code while scale * 100000 fits int64 and no counter wraps.
- Wall-clock behaviour of timers and tickers, and progress of paced workers across a change of target_tps, which the code does not guarantee: a pacing gate may return or fail at any time. The gate's own object is the `ticker` field.
- The lock and join workloads and hotAccountID: they appear only as operations with counted or uncounted errors; they would add easy members.
- Misuse of the wait group in the window between its draining and a late alter: such workers are modelled, the runtime's panic is not.
- ActiveRuns.ActiveRun.WorkerLoop: runs a worker without interruption, over the rounds met so far; interleaving is the pool machine's part, and RoundIsPlayed ties the two.
- WorkerPool.AlteredInv: an alter is one step; SplitAlterIsAtomic says why that loses no outcome. In between, inside the call, the configured clients may be ahead of the tracked workers.
- Requests that are refused: in the lifecycle they change nothing and are not events; the class methods state the refusals.
- The text joined from the errors of a failed operation and a failed rollback.
- Start options with a target_tps below 1 that bypass validation: the code would divide by zero or pace by a nanosecond; RunnerAccepts excludes them.
- The guard on a zero run start time in sampleLocked: its branch writes the value already there.
- Sample.Metrics and the cloning of options and states, which are identities on values.
