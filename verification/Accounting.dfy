/**
  What a run's statistics say of what its operations returned.  The operations are those the
  workload returned to the workers, RunOnceReturns, in any interleaving; everything here is stated
  of them, not of the log the model keeps.
 */
module Accounting {
  import opened Wrappers
  import opened ErrorText
  import opened Options
  import opened Sums
  import opened Samples
  import opened RunStatistics
  import opened WorkerPool
  import opened PoolRuns
  import H = LatencyHistograms

  // ----- the log is what was returned

  /** What RunOnce last returned to worker `id` in the first n moves. */
  function Returned(moves: seq<Move>, n: nat, id: nat): (o: Option<Outcome>)
    requires n <= |moves|
  {
    if n == 0 then None
    else if moves[n - 1].Take? && moves[n - 1].step.RunOnceReturns? && moves[n - 1].step.id == id
    then Some(moves[n - 1].step.outcome)
    else Returned(moves, n - 1, id)
  }

  function CarriedBy(phase: Phase): (o: Option<Outcome>) {
    match phase
    case Completed(o) => Some(o)
    case Recording(o) => Some(o)
    case Recorded(o) => Some(o)
    case _ => None
  }

  lemma {:induction false} CarriedStepFrom(p: Pool, step: Step, id: nat)
    requires Enabled(p, step, true) && id in Next(p, step).workers && CarriedBy(Next(p, step).workers[id]).Some?
    ensures var o := CarriedBy(Next(p, step).workers[id]);
            if step.RunOnceReturns? && step.id == id then o == Some(step.outcome)
            else id in p.workers && CarriedBy(p.workers[id]) == o
  {
  }

  /** A worker carries the outcome its operation returned, unchanged. */
  lemma {:induction false} CarriedIsReturned(run: seq<Pool>, moves: seq<Move>, n: nat, id: nat)
    requires IsRun(run, moves) && n < |run| && id in run[n].workers && CarriedBy(run[n].workers[id]).Some?
    ensures Returned(moves, n, id) == CarriedBy(run[n].workers[id])
  {
    if n > 0 {
      var p, move, q := run[n - 1], moves[n - 1], run[n];
      match move {
        case Rest =>
        case Take(step) => CarriedStepFrom(p, step, id);
        case Alter(a) => AlteredExtends(p, a, q);
      }
      if !(move.Take? && move.step.RunOnceReturns? && move.step.id == id) {
        CarriedIsReturned(run, moves, n - 1, id);
      }
    }
  }

  /** What was returned to the workers that recorded in the first n moves, in that order. */
  function Recordings(moves: seq<Move>, n: nat): (outs: seq<Outcome>)
    requires n <= |moves|
  {
    if n == 0 then []
    else
      var move := moves[n - 1];
      Recordings(moves, n - 1)
      + if move.Take? && move.step.RecordOutcome? && Returned(moves, n - 1, move.step.id).Some?
        then [Returned(moves, n - 1, move.step.id).value] else []
  }

  lemma {:induction false} StepLogs(p: Pool, step: Step)
    requires Enabled(p, step, true)
    ensures var log := Next(p, step).stats.log;
            if step.RecordOutcome? then
              |log| == |p.stats.log| + 1 && log[..|p.stats.log|] == p.stats.log
              && Logs(log[|p.stats.log|], p.workers[step.id].outcome)
            else log == p.stats.log
  {
  }

  lemma {:induction false} LogsOneMore(log: seq<Completion>, outs: seq<Outcome>, more: seq<Completion>, o: Outcome)
    requires LogsAll(log, outs) && |more| == |log| + 1 && more[..|log|] == log && Logs(more[|log|], o)
    ensures LogsAll(more, outs + [o])
  {
    forall k | 0 <= k < |log| ensures Logs(more[k], (outs + [o])[k]) {
      assert more[k] == more[..|log|][k];
    }
  }

  lemma {:induction false} LogStays(p: Pool, move: Move, q: Pool)
    requires Moves(p, move, q) && !(move.Take? && move.step.RecordOutcome?)
    ensures q.stats.log == p.stats.log
  {
    match move
    case Rest =>
    case Take(step) => StepLogs(p, step);
    case Alter(a) => AlteredFrame(p, a, q);
  }

  /** The log is, entry by entry and field by field, what the recording workers were returned. */
  lemma {:induction false} LogIsReturned(run: seq<Pool>, moves: seq<Move>, n: nat)
    requires IsRun(run, moves) && n < |run|
    ensures LogsAll(run[n].stats.log, Recordings(moves, n))
  {
    if n == 0 {
      return;
    }
    var p, move, q := run[n - 1], moves[n - 1], run[n];
    LogIsReturned(run, moves, n - 1);
    if move.Take? && move.step.RecordOutcome? {
      CarriedIsReturned(run, moves, n - 1, move.step.id);
      StepLogs(p, move.step);
      LogsOneMore(p.stats.log, Recordings(moves, n - 1), q.stats.log, p.workers[move.step.id].outcome);
      return;
    }
    LogStays(p, move, q);
  }

  // ----- no operation is lost but failures on a cancelled context

  function PhaseSum(f: Phase -> nat, workers: map<nat, Phase>, n: nat): (sum: nat) {
    if n == 0 then 0
    else PhaseSum(f, workers, n - 1) + if n - 1 in workers then f(workers[n - 1]) else 0
  }

  lemma {:induction false} PhaseSumMoved(f: Phase -> nat, workers: map<nat, Phase>, id: nat, phase: Phase, n: nat)
    requires id in workers
    ensures PhaseSum(f, workers[id := phase], n)
         == PhaseSum(f, workers, n) + if id < n then f(phase) - f(workers[id]) else 0
  {
    if n > 0 {
      PhaseSumMoved(f, workers, id, phase, n - 1);
    }
  }

  lemma {:induction false} PhaseSumRemoved(f: Phase -> nat, workers: map<nat, Phase>, id: nat, n: nat)
    requires id in workers
    ensures PhaseSum(f, workers - {id}, n) == PhaseSum(f, workers, n) - if id < n then f(workers[id]) else 0
  {
    if n > 0 {
      PhaseSumRemoved(f, workers, id, n - 1);
    }
  }

  lemma {:induction false} PhaseSumSame(f: Phase -> nat, a: map<nat, Phase>, b: map<nat, Phase>, n: nat)
    requires forall id :: id in a && id < n ==> id in b && b[id] == a[id]
    requires forall id :: id in b && id < n ==> id in a
    ensures PhaseSum(f, b, n) == PhaseSum(f, a, n)
  {
    if n > 0 {
      PhaseSumSame(f, a, b, n - 1);
    }
  }

  /** Workers that come new weigh nothing. */
  lemma {:induction false} PhaseSumGrown(f: Phase -> nat, a: map<nat, Phase>, b: map<nat, Phase>, n: nat, m: nat)
    requires n <= m && f(Pacing) == 0
    requires forall id :: id in a && id < n ==> id in b && b[id] == a[id]
    requires forall id :: id in b ==> (id in a && id < n && b[id] == a[id]) || (n <= id && b[id].Pacing?)
    ensures PhaseSum(f, b, m) == PhaseSum(f, a, n)
    decreases m
  {
    if m == n {
      PhaseSumSame(f, a, b, n);
    } else {
      PhaseSumGrown(f, a, b, n, m - 1);
    }
  }

  /** An outcome not yet recorded, of a success or of a failure. */
  function Waiting(failed: bool): (f: Phase -> nat) {
    (phase: Phase) =>
      if (phase.Completed? || phase.Recording?) && phase.outcome.error.Some? == failed then 1 else 0
  }

  function WaitingIn(p: Pool, failed: bool): (n: nat) {
    PhaseSum(Waiting(failed), p.workers, p.nextID)
  }

  function Ended(failed: bool): (f: Completion -> bool) { (c: Completion) => c.error.Some? == failed }

  /** The step returns an operation of that kind to a worker. */
  predicate Returns(move: Move, failed: bool) {
    move.Take? && move.step.RunOnceReturns? && move.step.outcome.error.Some? == failed
  }

  function ReturnedCount(moves: seq<Move>, n: nat, failed: bool): (count: nat)
    requires n <= |moves|
  {
    if n == 0 then 0 else ReturnedCount(moves, n - 1, failed) + if Returns(moves[n - 1], failed) then 1 else 0
  }

  /** The move drops an outcome: a failure, on a cancelled context, at the first check. */
  predicate Drops(p: Pool, move: Move) {
    && move.Take? && move.step.CheckContext? && move.step.id in p.workers
    && p.workers[move.step.id].Completed? && p.workers[move.step.id].outcome.error.Some?
    && ContextCancelled(p, move.step.id)
  }

  function DroppedCount(run: seq<Pool>, moves: seq<Move>, n: nat): (count: nat)
    requires n <= |moves| <= |run|
  {
    if n == 0 then 0 else DroppedCount(run, moves, n - 1) + if Drops(run[n - 1], moves[n - 1]) then 1 else 0
  }

  function One(b: bool): (n: nat) { if b then 1 else 0 }

  /** The steps that move one worker from one phase to another. */
  predicate MovesWorker(s: Step) {
    || s.PaceReturns? || s.PaceFails? || s.RunOnceReturns? || s.CheckContext? || s.RecordOutcome?
    || s.Decide? || s.FinishReturns? || s.WorkerStops?
  }

  /** One worker's step, counted: what is returned, waits, is logged or dropped. */
  lemma {:induction false} StepBalance(p: Pool, step: Step, failed: bool)
    requires Enabled(p, step, true) && MovesWorker(step)
    ensures var q := Next(p, step);
            var w := Waiting(failed);
            && step.id in p.workers && step.id in q.workers
            && w(p.workers[step.id]) + One(Returns(Take(step), failed))
               == w(q.workers[step.id]) + One(step.RecordOutcome? && p.workers[step.id].outcome.error.Some? == failed)
                  + One(failed && Drops(p, Take(step)))
  {
  }

  lemma {:induction false} LogStep(p: Pool, step: Step, failed: bool)
    requires Enabled(p, step, true)
    ensures CountBy(Ended(failed), Next(p, step).stats.log)
         == CountBy(Ended(failed), p.stats.log)
            + One(step.RecordOutcome? && p.workers[step.id].outcome.error.Some? == failed)
  {
    assert step.RecordOutcome? ==> Next(p, step).stats.log[..|p.stats.log|] == p.stats.log;
  }

  lemma {:induction false} WorkerStepConserves(p: Pool, step: Step, failed: bool)
    requires IdsAgree(p) && Enabled(p, step, true) && MovesWorker(step)
    ensures WaitingIn(p, failed) + One(Returns(Take(step), failed))
         == WaitingIn(Next(p, step), failed)
            + One(step.RecordOutcome? && p.workers[step.id].outcome.error.Some? == failed)
            + One(failed && Drops(p, Take(step)))
  {
    var q := Next(p, step);
    StepBalance(p, step, failed);
    PhaseSumMoved(Waiting(failed), p.workers, step.id, q.workers[step.id], p.nextID);
  }

  lemma {:induction false} OtherStepConserves(p: Pool, step: Step, failed: bool)
    requires Enabled(p, step, true) && !MovesWorker(step)
    ensures WaitingIn(Next(p, step), failed) == WaitingIn(p, failed)
    ensures !step.RecordOutcome? && !Returns(Take(step), failed) && !Drops(p, Take(step))
  {
    if step.WaitGroupDone? {
      PhaseSumRemoved(Waiting(failed), p.workers, step.id, p.nextID);
    }
  }

  lemma {:induction false} AlterConserves(p: Pool, q: Pool, failed: bool)
    requires IdsAgree(p) && Extends(p, q)
    ensures WaitingIn(q, failed) == WaitingIn(p, failed)
  {
    PhaseSumGrown(Waiting(failed), p.workers, q.workers, p.nextID, q.nextID);
  }

  /** One move of the pool, counted. */
  lemma {:induction false} MoveConserves(p: Pool, move: Move, q: Pool, failed: bool)
    requires IdsAgree(p) && Moves(p, move, q)
    ensures WaitingIn(p, failed) + CountBy(Ended(failed), p.stats.log) + One(Returns(move, failed))
         == WaitingIn(q, failed) + CountBy(Ended(failed), q.stats.log) + One(failed && Drops(p, move))
  {
    match move
    case Rest =>
    case Take(step) =>
      LogStep(p, step, failed);
      if MovesWorker(step) {
        WorkerStepConserves(p, step, failed);
        return;
      }
      OtherStepConserves(p, step, failed);
    case Alter(a) =>
      AlteredExtends(p, a, q);
      AlteredFrame(p, a, q);
      AlterConserves(p, q, failed);
  }

  lemma {:induction false} NewHasNoneWaiting(p: Pool, failed: bool)
    requires IsNew(p)
    ensures WaitingIn(p, failed) == 0 && p.stats.log == []
  {
    PhaseSumGrown(Waiting(failed), map[], p.workers, 0, p.nextID);
  }

  /**
    Conservation of operations over any run: every operation that returned is logged, still waits
    to be recorded, or was dropped; and only failures are dropped, on a cancelled context.  In
    particular every success is recorded, also after a cancellation and after the finish.
   */
  lemma {:induction false} OperationsConserved(run: seq<Pool>, moves: seq<Move>, n: nat, failed: bool)
    requires IsRun(run, moves) && n < |run|
    ensures ReturnedCount(moves, n, failed)
         == CountBy(Ended(failed), run[n].stats.log) + WaitingIn(run[n], failed)
            + if failed then DroppedCount(run, moves, n) else 0
  {
    if n == 0 {
      NewHasNoneWaiting(run[0], failed);
      return;
    }
    OperationsConserved(run, moves, n - 1, failed);
    assert IdsAgree(run[n - 1]) by { InvOverRuns(run, moves, n - 1); }
    MoveConserves(run[n - 1], moves[n - 1], run[n], failed);
  }

  // ----- the sample of a run

  lemma {:induction false} CountPointwise<X, Y>(p: X -> bool, xs: seq<X>, q: Y -> bool, ys: seq<Y>)
    requires |xs| == |ys| && forall k :: 0 <= k < |xs| ==> p(xs[k]) == q(ys[k])
    ensures CountBy(p, xs) == CountBy(q, ys)
  {
    if xs != [] {
      CountPointwise(p, xs[..|xs| - 1], q, ys[..|ys| - 1]);
    }
  }

  /** Operations that ended at or after `start`: all of them, those that failed or not, those of a kind. */
  function Since(start: int): (f: Outcome -> bool) { (o: Outcome) => o.at >= start }

  function SinceEnded(start: int, failed: bool): (f: Outcome -> bool) {
    (o: Outcome) => o.at >= start && o.error.Some? == failed
  }

  function SinceOfKind(start: int, kind: int): (f: Outcome -> bool) { (o: Outcome) => o.at >= start && o.kind == kind }

  /** Their latencies in order, negative ones as zero. */
  function LatenciesSince(start: int, outs: seq<Outcome>): (ls: seq<int>) {
    if outs == [] then []
    else
      var last := outs[|outs| - 1];
      LatenciesSince(start, outs[..|outs| - 1])
      + if last.at >= start then [if last.latency < 0 then 0 else last.latency] else []
  }

  lemma {:induction false} LatenciesAgree(start: int, log: seq<Completion>, outs: seq<Outcome>)
    requires LogsAll(log, outs)
    ensures Latencies(start, log) == LatenciesSince(start, outs)
  {
    if log != [] {
      LatenciesAgree(start, log[..|log| - 1], outs[..|outs| - 1]);
    }
  }

  /** The nine counts, each of its own kind. */
  ghost predicate CountsKinds(c: PerKind<nat>, start: int, outs: seq<Outcome>) {
    && c.pointRead == CountBy(SinceOfKind(start, 0), outs)
    && c.rangeRead == CountBy(SinceOfKind(start, 1), outs)
    && c.historyInsert == CountBy(SinceOfKind(start, 2), outs)
    && c.accountUpdate == CountBy(SinceOfKind(start, 3), outs)
    && c.transaction == CountBy(SinceOfKind(start, 4), outs)
    && c.join == CountBy(SinceOfKind(start, 5), outs)
    && c.aggregation == CountBy(SinceOfKind(start, 6), outs)
    && c.lockContention == CountBy(SinceOfKind(start, 7), outs)
    && c.hotUpdate == CountBy(SinceOfKind(start, 8), outs)
  }

  lemma {:induction false} KindAgrees(start: int, kind: nat, log: seq<Completion>, outs: seq<Outcome>)
    requires LogsAll(log, outs)
    ensures CountBy(OfKind(start, kind), log) == CountBy(SinceOfKind(start, kind), outs)
  {
    CountPointwise(OfKind(start, kind), log, SinceOfKind(start, kind), outs);
  }

  lemma {:induction false} KindsAgree(start: int, log: seq<Completion>, outs: seq<Outcome>)
    requires LogsAll(log, outs)
    ensures CountsKinds(OperationCountsOf(start, log), start, outs)
  {
    forall kind: nat | kind < 9 ensures CountBy(OfKind(start, kind), log) == CountBy(SinceOfKind(start, kind), outs) {
      KindAgrees(start, kind, log, outs);
    }
  }

  /** What a sample says of the operations returned to the workers, with `start` the end of the warm-up. */
  ghost predicate Accounts(r: Sample, start: int, outs: seq<Outcome>) {
    && r.totalOperations == CountBy(Since(start), outs)
    && r.successfulOperations == CountBy(SinceEnded(start, false), outs)
    && r.failedOperations == CountBy(SinceEnded(start, true), outs)
    && CountsKinds(r.operationCounts, start, outs)
    && Describes(r.latency, LatenciesSince(start, outs))
  }

  function Total(ls: seq<int>): (sum: int) {
    if ls == [] then 0 else Total(ls[..|ls| - 1]) + ls[|ls| - 1]
  }

  lemma {:induction false} TotalIsSum(ls: seq<int>)
    ensures Total(ls) == SumBy(H.Itself(), ls)
  {
    if ls != [] {
      TotalIsSum(ls[..|ls| - 1]);
    }
  }

  /** What the latency part of a sample says of latencies in nanoseconds. */
  ghost predicate Describes(l: LatencySample, ls: seq<int>) {
    && l.count == |ls| && SumsUp(l.sumSeconds, ls) && Averages(l.averageMilliseconds, ls)
    && DescribesBuckets(l.buckets, ls)
    && (ls != [] ==> DescribesOrder(l, ls))
    && (ls == [] ==> l == LatencySample(0.0, 0.0, 0.0, 0.0, 0.0, 0.0, 0.0, l.buckets, 0, 0.0))
  }

  ghost predicate SumsUp(seconds: real, ls: seq<int>) {
    seconds * 1_000_000_000.0 == Total(ls) as real
  }

  ghost predicate Averages(ms: real, ls: seq<int>) {
    ms * 1_000_000.0 * |ls| as real == Total(ls) as real
  }

  ghost predicate DescribesBuckets(buckets: seq<SampleBucket>, ls: seq<int>) {
    && |buckets| == 320
    && forall i: nat :: i < 320 ==>
         && buckets[i].upperBoundSeconds * 1_000_000_000.0 == H.Bound(i) as real
         && buckets[i].cumulativeCount == CountBy(H.AtMost(H.Bound(i)), ls)
  }

  ghost predicate DescribesOrder(l: LatencySample, ls: seq<int>) {
    && IsLeast(l.minMilliseconds, ls) && IsGreatest(l.maxMilliseconds, ls)
    && IsPercentile(l.p50Milliseconds, 0.50, ls) && IsPercentile(l.p90Milliseconds, 0.90, ls)
    && IsPercentile(l.p95Milliseconds, 0.95, ls) && IsPercentile(l.p99Milliseconds, 0.99, ls)
  }

  ghost predicate IsLeast(ms: real, ls: seq<int>) {
    exists v :: v in ls && ms * 1_000_000.0 == v as real && forall k :: 0 <= k < |ls| ==> v <= ls[k]
  }

  ghost predicate IsGreatest(ms: real, ls: seq<int>) {
    exists v :: v in ls && ms * 1_000_000.0 == v as real && forall k :: 0 <= k < |ls| ==> ls[k] <= v
  }

  ghost predicate IsPercentile(ms: real, percentile: real, ls: seq<int>) {
    exists q :: ms * 1_000_000.0 == q as real && H.IsQuantile(ls, percentile, q)
  }

  lemma {:induction false} Scaled(d: int)
    ensures Milliseconds(d) * 1_000_000.0 == d as real
    ensures Seconds(d) * 1_000_000_000.0 == d as real
  {
  }

  lemma {:induction false} AverageScaled(sum: int, n: nat)
    requires n == 0 ==> sum == 0
    ensures AverageMilliseconds(sum, n) * 1_000_000.0 * n as real == sum as real
  {
    if n > 0 {
      var a := sum as real / n as real;
      assert AverageMilliseconds(sum, n) == a / 1_000_000.0;
      assert a / 1_000_000.0 * 1_000_000.0 == a;
      assert a * n as real == sum as real;
    }
  }

  lemma {:induction false} PercentileOf(ls: seq<int>, percentile: real)
    requires ls != [] && 0.0 < percentile <= 1.0
    ensures IsPercentile(Milliseconds(H.QuantileOf(ls, percentile)), percentile, ls)
  {
    var q := H.QuantileOf(ls, percentile);
    H.QuantileHasShare(ls, percentile);
    Scaled(q);
    assert Milliseconds(q) * 1_000_000.0 == q as real && H.IsQuantile(ls, percentile, q);
  }

  lemma {:induction false} ExtremesOf(ls: seq<int>)
    requires ls != []
    ensures IsLeast(Milliseconds(H.MinOf(ls)), ls) && IsGreatest(Milliseconds(H.MaxOf(ls)), ls)
  {
    H.MinMax(ls);
    Scaled(H.MinOf(ls));
    Scaled(H.MaxOf(ls));
  }

  lemma {:induction false} BucketsDescribe(ls: seq<int>)
    ensures DescribesBuckets(InSeconds(H.BucketsOf(ls)), ls)
  {
    var buckets := InSeconds(H.BucketsOf(ls));
    forall i: nat | i < 320
      ensures buckets[i].upperBoundSeconds * 1_000_000_000.0 == H.Bound(i) as real
           && buckets[i].cumulativeCount == CountBy(H.AtMost(H.Bound(i)), ls)
    {
    }
  }

  lemma {:induction false} AverageDescribes(ls: seq<int>, sum: int)
    requires sum == Total(ls)
    ensures Averages(AverageMilliseconds(sum, |ls|), ls)
  {
    AverageScaled(sum, |ls|);
  }

  lemma {:induction false} SumDescribes(ls: seq<int>, sum: int)
    requires sum == Total(ls)
    ensures SumsUp(Seconds(sum), ls)
  {
    Scaled(sum);
  }

  lemma {:induction false} OrderDescribes(ls: seq<int>)
    requires ls != []
    ensures DescribesOrder(LatencySampleOf(ls), ls)
  {
    ExtremesOf(ls);
    PercentileOf(ls, 0.50);
    PercentileOf(ls, 0.90);
    PercentileOf(ls, 0.95);
    PercentileOf(ls, 0.99);
  }

  lemma {:induction false} NothingDescribed(ls: seq<int>)
    requires ls == []
    ensures LatencySampleOf(ls)
         == LatencySample(0.0, 0.0, 0.0, 0.0, 0.0, 0.0, 0.0, LatencySampleOf(ls).buckets, 0, 0.0)
  {
  }

  lemma {:induction false} SampleDescribes(ls: seq<int>)
    ensures Describes(LatencySampleOf(ls), ls)
  {
    BucketsDescribe(ls);
    TotalIsSum(ls);
    AverageDescribes(ls, Total(ls));
    SumDescribes(ls, Total(ls));
    if ls != [] {
      OrderDescribes(ls);
      return;
    }
    NothingDescribed(ls);
  }

  lemma {:induction false} TotalsAgree(start: int, log: seq<Completion>, outs: seq<Outcome>)
    requires LogsAll(log, outs)
    ensures CountBy(Measured(start), log) == CountBy(Since(start), outs)
    ensures CountBy(Succeeded(start), log) == CountBy(SinceEnded(start, false), outs)
    ensures CountBy(Failed(start), log) == CountBy(SinceEnded(start, true), outs)
  {
    CountPointwise(Measured(start), log, Since(start), outs);
    CountPointwise(Succeeded(start), log, SinceEnded(start, false), outs);
    CountPointwise(Failed(start), log, SinceEnded(start, true), outs);
  }

  lemma {:induction false} SampleAccounts(s: Statistics, outs: seq<Outcome>, now: int)
    requires LogsAll(s.log, outs)
    ensures Accounts(SampleOf(s, now), s.measurementStartedAt, outs)
  {
    TotalsAgree(s.measurementStartedAt, s.log, outs);
    KindsAgree(s.measurementStartedAt, s.log, outs);
    LatenciesAgree(s.measurementStartedAt, s.log, outs);
    SampleDescribes(LatenciesSince(s.measurementStartedAt, outs));
  }

  /** The end of the warm-up, for a run started at `startedAt`. */
  function WarmUpEnds(options: StartOptions, startedAt: int): (t: int) {
    startedAt + options.warmupSeconds * 1_000_000_000
  }

  lemma {:induction false} StartStays(run: seq<Pool>, moves: seq<Move>, n: nat)
    requires IsRun(run, moves) && n < |run|
    ensures run[n].stats.measurementStartedAt == run[0].stats.measurementStartedAt
  {
    if n > 0 {
      StartStays(run, moves, n - 1);
      if moves[n - 1].Alter? {
        AlteredFrame(run[n - 1], moves[n - 1].options, run[n]);
      }
    }
  }

  /** The run was started with the options, at the time. */
  ghost predicate StartedWith(run: seq<Pool>, options: StartOptions, startedAt: int) {
    && options.clients >= 1 && (options.targetTPS.Some? ==> options.targetTPS.value >= 1)
    && run != [] && run[0] == NewPool(options, startedAt)
  }

  lemma {:induction false} MeasuresFrom(run: seq<Pool>, moves: seq<Move>, n: nat, options: StartOptions, startedAt: int)
    requires IsRun(run, moves) && n < |run| && StartedWith(run, options, startedAt)
    ensures run[n].stats.measurementStartedAt == WarmUpEnds(options, startedAt)
  {
    StartStays(run, moves, n);
  }

  /**
    Every sample of every run: its counts, latencies, percentiles and buckets are those of the
    operations that were returned to the workers, recorded, and ended after the warm-up.
   */
  lemma {:induction false} SampleOfRun(
    run: seq<Pool>, moves: seq<Move>, n: nat, options: StartOptions, startedAt: int, now: int)
    requires IsRun(run, moves) && n < |run| && StartedWith(run, options, startedAt)
    ensures Accounts(SampleOf(run[n].stats, now), WarmUpEnds(options, startedAt), Recordings(moves, n))
  {
    var s := run[n].stats;
    assert s.measurementStartedAt == WarmUpEnds(options, startedAt) by {
      MeasuresFrom(run, moves, n, options, startedAt);
    }
    assert LogsAll(s.log, Recordings(moves, n)) by { LogIsReturned(run, moves, n); }
    SampleAccounts(s, Recordings(moves, n), now);
  }

  // ----- the elapsed time

  /** From the end of the warm-up to `end`, in seconds; nothing before it. */
  ghost predicate Spans(seconds: real, start: int, end: int) {
    seconds * 1_000_000_000.0 == (if end > start then end - start else 0) as real
  }

  lemma {:induction false} ElapsedSpans(s: Statistics, now: int)
    ensures Spans(SampleOf(s, now).elapsedSeconds, s.measurementStartedAt,
                  if s.finishedAt.Some? then s.finishedAt.value else now)
  {
    Scaled(Elapsed(s, now));
  }

  /** Until the run finishes, the elapsed time runs from the end of the warm-up to now. */
  lemma {:induction false} ElapsedWhileRunning(
    run: seq<Pool>, moves: seq<Move>, n: nat, options: StartOptions, startedAt: int, now: int)
    requires IsRun(run, moves) && n < |run|
    requires StartedWith(run, options, startedAt)
    requires run[n].finish.NotFinished? || run[n].finish.ErrorSet?
    ensures Spans(SampleOf(run[n].stats, now).elapsedSeconds, WarmUpEnds(options, startedAt), now)
  {
    MeasuresFrom(run, moves, n, options, startedAt);
    ElapsedSpans(run[n].stats, now);
    assert FinishAgrees(run[n]) by { InvOverRuns(run, moves, n); }
  }

  /** From then on it ends at the time of the finish. */
  lemma {:induction false} ElapsedAfterFinish(
    run: seq<Pool>, moves: seq<Move>, k: nat, n: nat, options: StartOptions, startedAt: int, now: int)
    requires IsRun(run, moves) && k < n < |run| && moves[k].Take? && moves[k].step.FinishStats?
    requires StartedWith(run, options, startedAt)
    ensures Spans(SampleOf(run[n].stats, now).elapsedSeconds, WarmUpEnds(options, startedAt), moves[k].step.now)
  {
    assert run[n].stats.finishedAt == Some(moves[k].step.now) by { FinishedThen(run, moves, k, n); }
    MeasuresFrom(run, moves, n, options, startedAt);
    ElapsedSpans(run[n].stats, now);
  }

  lemma {:induction false} FinishedThen(run: seq<Pool>, moves: seq<Move>, k: nat, n: nat)
    requires IsRun(run, moves) && k < n < |run| && moves[k].Take? && moves[k].step.FinishStats?
    ensures run[n].stats.finishedAt == Some(moves[k].step.now)
  {
    assert FinishAgrees(run[k]) by { InvOverRuns(run, moves, k); }
    FollowsOverRun(run, moves, k + 1, n);
  }
}
