/**
  The statistics of one run: `runStats` of internal/benchrunner/stats.go.

  The abstract statistics keep the whole log of completed operations; the class keeps
  counters and a histogram, in constant memory, and reports the same sample.
 */
module RunStatistics {
  import opened Wrappers
  import opened ErrorText
  import opened Sums
  import opened Samples
  import H = LatencyHistograms

  /** A call of record: the kind returned by the workload, and the error text if it failed. */
  datatype Completion = Completion(kind: int, latency: int, completedAt: int, error: Option<Text>)

  const POINT_READ: nat := 0
  const RANGE_READ: nat := 1
  const HISTORY_INSERT: nat := 2
  const ACCOUNT_UPDATE: nat := 3
  const TRANSACTION: nat := 4
  const JOIN: nat := 5
  const AGGREGATION: nat := 6
  const LOCK_CONTENTION: nat := 7
  const HOT_UPDATE: nat := 8
  /** operationKindCount */
  const KINDS: nat := 9

  datatype Statistics = Statistics(
    measurementStartedAt: int,
    finishedAt: Option<int>,
    activeClients: nat,
    configuredClients: int,
    log: seq<Completion>,
    latestError: Text)

  // ----- the abstract operations

  function NewStatistics(startedAt: int, warmup: int, clients: int): (s: Statistics) {
    Statistics(startedAt + warmup, None, 0, clients, [], [])
  }

  function Record(s: Statistics, c: Completion): (r: Statistics) {
    s.(log := s.log + [c], latestError := if c.error.Some? then Compact(c.error.value) else s.latestError)
  }

  function Finish(s: Statistics, at: int, error: Option<Text>): (r: Statistics) {
    s.(finishedAt := if s.finishedAt.None? then Some(at) else s.finishedAt,
       latestError := if error.Some? then Compact(error.value) else s.latestError)
  }

  // ----- what the log means: only operations completed after warm-up are measured

  function Measured(start: int): (p: Completion -> bool) {
    (c: Completion) => start <= c.completedAt
  }

  function Succeeded(start: int): (p: Completion -> bool) {
    (c: Completion) => start <= c.completedAt && c.error.None?
  }

  function Failed(start: int): (p: Completion -> bool) {
    (c: Completion) => start <= c.completedAt && c.error.Some?
  }

  function OfKind(start: int, kind: int): (p: Completion -> bool) {
    (c: Completion) => start <= c.completedAt && c.kind == kind
  }

  function KindBelow(start: int, kind: int): (p: Completion -> bool) {
    (c: Completion) => start <= c.completedAt && 0 <= c.kind < kind
  }

  function LatencyIs(start: int, v: int): (p: Completion -> bool) {
    (c: Completion) => start <= c.completedAt && H.Clamp(c.latency) == v
  }

  /** The clamped latencies of the measured operations, in order. */
  function Latencies(start: int, log: seq<Completion>): (ls: seq<int>) {
    if log == [] then []
    else
      var n := |log| - 1;
      Latencies(start, log[..n]) + if start <= log[n].completedAt then [H.Clamp(log[n].latency)] else []
  }

  datatype Counters = Counters(total: nat, successful: nat, failed: nat, perKind: seq<nat>)

  function CountersOf(start: int, log: seq<Completion>): (c: Counters)
    ensures |c.perKind| == KINDS
  {
    Counters(
      CountBy(Measured(start), log),
      CountBy(Succeeded(start), log),
      CountBy(Failed(start), log),
      seq(KINDS, k requires 0 <= k < KINDS => CountBy(OfKind(start, k), log)))
  }

  // ----- the sample

  function Seconds(d: int): (s: real) { d as real / 1_000_000_000.0 }

  function Milliseconds(d: int): (ms: real) { d as real / 1_000_000.0 }

  function AverageMilliseconds(sum: int, total: nat): (ms: real) {
    if total == 0 then 0.0 else sum as real / total as real / 1_000_000.0
  }

  /** Measured time: from the end of the warm-up to now, or to the finish once there is one. */
  function Elapsed(s: Statistics, now: int): (d: int)
    ensures d >= 0
  {
    var end := if s.finishedAt.Some? then s.finishedAt.value else now;
    if end > s.measurementStartedAt then end - s.measurementStartedAt else 0
  }

  function InSeconds(buckets: seq<H.Bucket>): (bs: seq<SampleBucket>)
    ensures |bs| == |buckets|
  {
    seq(|buckets|, i requires 0 <= i < |buckets| =>
      SampleBucket(Seconds(buckets[i].upperBound), buckets[i].cumulative))
  }

  function LatencySampleOf(ls: seq<int>): (l: LatencySample) {
    LatencySample(
      Milliseconds(H.MinOf(ls)),
      Milliseconds(H.MaxOf(ls)),
      AverageMilliseconds(SumBy(H.Itself(), ls), |ls|),
      Milliseconds(H.QuantileOf(ls, 0.50)),
      Milliseconds(H.QuantileOf(ls, 0.90)),
      Milliseconds(H.QuantileOf(ls, 0.95)),
      Milliseconds(H.QuantileOf(ls, 0.99)),
      InSeconds(H.BucketsOf(ls)),
      |ls|,
      Seconds(SumBy(H.Itself(), ls)))
  }

  /** The measured operations of each kind. */
  function OperationCountsOf(start: int, log: seq<Completion>): (c: PerKind<nat>) {
    PerKind(
      CountBy(OfKind(start, POINT_READ), log),
      CountBy(OfKind(start, RANGE_READ), log),
      CountBy(OfKind(start, HISTORY_INSERT), log),
      CountBy(OfKind(start, ACCOUNT_UPDATE), log),
      CountBy(OfKind(start, TRANSACTION), log),
      CountBy(OfKind(start, JOIN), log),
      CountBy(OfKind(start, AGGREGATION), log),
      CountBy(OfKind(start, LOCK_CONTENTION), log),
      CountBy(OfKind(start, HOT_UPDATE), log))
  }

  function SampleOf(s: Statistics, now: int): (r: Sample) {
    var start := s.measurementStartedAt;
    Sample(
      LatencySampleOf(Latencies(start, s.log)),
      Seconds(Elapsed(s, now)),
      CountBy(Measured(start), s.log), CountBy(Succeeded(start), s.log), CountBy(Failed(start), s.log),
      s.activeClients, s.configuredClients,
      OperationCountsOf(start, s.log),
      s.latestError)
  }

  // ----- the constant-memory class

  /** The counters after one more measured operation. */
  function Counted(c: Counters, op: Completion): (r: Counters)
    requires |c.perKind| == KINDS
  {
    Counters(
      c.total + 1,
      if op.error.None? then c.successful + 1 else c.successful,
      if op.error.None? then c.failed else c.failed + 1,
      if 0 <= op.kind < KINDS then c.perKind[op.kind := c.perKind[op.kind] + 1] else c.perKind)
  }

  lemma {:induction false} CountersAppend(start: int, log: seq<Completion>, op: Completion)
    ensures CountersOf(start, log + [op])
         == if start <= op.completedAt then Counted(CountersOf(start, log), op) else CountersOf(start, log)
  {
  }

  class RunStats {
    const measurementStartedAt: int
    var finishedAt: Option<int>
    var activeClients: nat
    var configuredClients: int
    var totalOperations: nat
    var successfulOperations: nat
    var failedOperations: nat
    const perKind: array<nat>
    const latency: H.LatencyHistogram
    var latestError: Text
    /** Every operation recorded so far; never stored by the code. */
    ghost var log: seq<Completion>

    /** The abstract statistics this object stands for. */
    ghost function View(): (s: Statistics)
      reads this
    {
      Statistics(measurementStartedAt, finishedAt, activeClients, configuredClients, log, latestError)
    }

    ghost function ViewCounters(): (c: Counters)
      reads this, perKind
    {
      Counters(totalOperations, successfulOperations, failedOperations, perKind[..])
    }

    ghost predicate Valid()
      reads this, perKind, latency, latency.counts
    {
      && perKind != latency.counts
      && perKind.Length == KINDS
      && latency.Valid()
      && latency.recorded == Latencies(measurementStartedAt, log)
      && ViewCounters() == CountersOf(measurementStartedAt, log)
    }

    /** newRunStats. */
    constructor (startedAt: int, warmup: int, clients: int)
      ensures Valid() && View() == NewStatistics(startedAt, warmup, clients)
      ensures fresh(perKind) && fresh(latency) && fresh(latency.counts)
    {
      measurementStartedAt := startedAt + warmup;
      finishedAt := None;
      activeClients, configuredClients := 0, clients;
      totalOperations, successfulOperations, failedOperations := 0, 0, 0;
      latestError := [];
      log := [];
      latency := new H.LatencyHistogram();
      perKind := new nat[KINDS](_ => 0);
      new;
      assert perKind[..] == CountersOf(measurementStartedAt, []).perKind;
    }

    /** setConfiguredClients. */
    method SetConfiguredClients(clients: int)
      requires Valid()
      modifies this`configuredClients
      ensures Valid() && View() == old(View()).(configuredClients := clients)
    {
      configuredClients := clients;
    }

    /** workerStarted. */
    method WorkerStarted()
      requires Valid()
      modifies this`activeClients
      ensures Valid() && View() == old(View()).(activeClients := old(activeClients) + 1)
    {
      activeClients := activeClients + 1;
    }

    /** workerStopped: the decrement saturates at zero. */
    method WorkerStopped()
      requires Valid()
      modifies this`activeClients
      ensures Valid()
      ensures View() == old(View()).(activeClients := if old(activeClients) > 0 then old(activeClients) - 1 else 0)
    {
      if activeClients > 0 {
        activeClients := activeClients - 1;
      }
    }

    /** record. */
    method RecordOperation(op: Completion)
      requires Valid()
      modifies this, perKind, latency, latency.counts
      ensures Valid() && View() == Record(old(View()), op)
    {
      if op.error.Some? {
        latestError := Compact(op.error.value);
      }
      log := log + [op];
      CountersAppend(measurementStartedAt, old(log), op);
      if op.completedAt < measurementStartedAt {
        assert Latencies(measurementStartedAt, log) == latency.recorded + [];
        return;
      }
      RecordMeasured(op);
    }

    method RecordMeasured(op: Completion)
      requires perKind != latency.counts && perKind.Length == KINDS && latency.Valid()
      modifies this`totalOperations, this`successfulOperations, this`failedOperations, perKind, latency, latency.counts
      ensures latency.Valid() && latency.recorded == old(latency.recorded) + [H.Clamp(op.latency)]
      ensures ViewCounters() == Counted(old(ViewCounters()), op)
      ensures View() == old(View())
    {
      CountOperation(op);
      latency.Record(op.latency);
    }

    method CountOperation(op: Completion)
      requires perKind.Length == KINDS
      modifies this`totalOperations, this`successfulOperations, this`failedOperations, perKind
      ensures ViewCounters() == Counted(old(ViewCounters()), op)
    {
      totalOperations := totalOperations + 1;
      if op.error.None? {
        successfulOperations := successfulOperations + 1;
      } else {
        failedOperations := failedOperations + 1;
      }
      if 0 <= op.kind < KINDS {
        H.Increment(perKind, op.kind);
      }
    }

    /** finish: the first finish fixes the end time. */
    method FinishRun(at: int, error: Option<Text>)
      requires Valid()
      modifies this`finishedAt, this`latestError
      ensures Valid() && View() == Finish(old(View()), at, error)
    {
      if finishedAt.None? {
        finishedAt := Some(at);
      }
      if error.Some? {
        latestError := Compact(error.value);
      }
    }

    /** sampleLocked: the sample of the counters is the sample of the log. */
    method TakeSample(now: int) returns (sample: Sample)
      requires Valid()
      ensures sample == SampleOf(View(), now)
    {
      var endAt := now;
      if finishedAt.Some? {
        endAt := finishedAt.value;
      }
      var elapsed := 0;
      if endAt > measurementStartedAt {
        elapsed := endAt - measurementStartedAt;
      }
      if finishedAt.None? && now < measurementStartedAt {
        elapsed := 0;
      }
      var latencySample := TakeLatencySample();
      var counts := TakeOperationCounts();
      sample := Sample(
        latencySample,
        Seconds(elapsed),
        totalOperations, successfulOperations, failedOperations,
        activeClients, configuredClients,
        counts,
        latestError);
    }

    method TakeOperationCounts() returns (c: PerKind<nat>)
      requires Valid()
      ensures c == OperationCountsOf(measurementStartedAt, log)
    {
      assert forall k: nat :: k < KINDS ==>
          perKind[k] == perKind[..][k] == CountBy(OfKind(measurementStartedAt, k), log);
      c := PerKind(
        perKind[POINT_READ], perKind[RANGE_READ], perKind[HISTORY_INSERT],
        perKind[ACCOUNT_UPDATE], perKind[TRANSACTION], perKind[JOIN],
        perKind[AGGREGATION], perKind[LOCK_CONTENTION], perKind[HOT_UPDATE]);
    }

    method TakeLatencySample() returns (l: LatencySample)
      requires Valid()
      ensures l == LatencySampleOf(latency.recorded)
    {
      var p50 := latency.Quantile(0.50);
      var p90 := latency.Quantile(0.90);
      var p95 := latency.Quantile(0.95);
      var p99 := latency.Quantile(0.99);
      var buckets, count, sum := latency.MetricsSnapshot();
      l := LatencySample(
        Milliseconds(latency.min), Milliseconds(latency.max),
        AverageMilliseconds(latency.sum, latency.total),
        Milliseconds(p50), Milliseconds(p90), Milliseconds(p95), Milliseconds(p99),
        InSeconds(buckets), count, Seconds(sum));
    }
  }

  // ----- conservation

  lemma {:induction false} LatenciesLength(start: int, log: seq<Completion>)
    ensures |Latencies(start, log)| == CountBy(Measured(start), log)
    ensures forall i :: 0 <= i < |Latencies(start, log)| ==> 0 <= Latencies(start, log)[i]
  {
    if log != [] {
      LatenciesLength(start, log[..|log| - 1]);
    }
  }

  lemma {:induction false} KindStep(start: int, log: seq<Completion>, k: nat)
    ensures CountBy(KindBelow(start, k + 1), log) == CountBy(KindBelow(start, k), log) + CountBy(OfKind(start, k), log)
  {
    CountSplit(KindBelow(start, k + 1), KindBelow(start, k), OfKind(start, k), log);
  }

  /** The nine counters together count the measured operations of valid kind. */
  lemma {:induction false} KindsTogether(start: int, log: seq<Completion>)
    ensures SumOfCounts(OperationCountsOf(start, log)) == CountBy(KindBelow(start, KINDS), log)
  {
    CountNone(KindBelow(start, 0), log);
    KindStep(start, log, 0);
    KindStep(start, log, 1);
    KindStep(start, log, 2);
    KindStep(start, log, 3);
    KindStep(start, log, 4);
    KindStep(start, log, 5);
    KindStep(start, log, 6);
    KindStep(start, log, 7);
    KindStep(start, log, 8);
  }

  ghost predicate ValidKinds(log: seq<Completion>) {
    forall i :: 0 <= i < |log| ==> 0 <= log[i].kind < KINDS
  }

  /**
    Conservation in every sample of every log: the operations completed after warm-up are the
    total, the successes plus the failures and the histogram count, and, all kinds being valid,
    the nine operation counts together; the nine rates then add up to the TPS exactly.
   */
  lemma {:induction false} Conservation(s: Statistics, now: int)
    ensures var r := SampleOf(s, now);
            && r.totalOperations == CountBy(Measured(s.measurementStartedAt), s.log)
            && r.totalOperations == r.successfulOperations + r.failedOperations
            && r.totalOperations == r.latency.count
            && SumOfCounts(r.operationCounts) <= r.totalOperations
    ensures ValidKinds(s.log) ==>
              var r := SampleOf(s, now);
              && SumOfCounts(r.operationCounts) == r.totalOperations
              && SumOfRates(StatsOf(r).operationRates) == StatsOf(r).tps
  {
    var start := s.measurementStartedAt;
    CountSplit(Measured(start), Succeeded(start), Failed(start), s.log);
    LatenciesLength(start, s.log);
    KindsTogether(start, s.log);
    CountMonotone(KindBelow(start, KINDS), Measured(start), s.log);
    RatesSum(SampleOf(s, now));
    if ValidKinds(s.log) {
      CountSame(KindBelow(start, KINDS), Measured(start), s.log);
    }
  }

  /** In every sample with measured operations, min <= p50 <= p90 <= p95 <= p99. */
  lemma {:induction false} PercentilesOrdered(s: Statistics, now: int)
    requires Latencies(s.measurementStartedAt, s.log) != []
    ensures var l := SampleOf(s, now).latency;
            l.minMilliseconds <= l.p50Milliseconds <= l.p90Milliseconds <= l.p95Milliseconds <= l.p99Milliseconds
  {
    var ls := Latencies(s.measurementStartedAt, s.log);
    LatenciesLength(s.measurementStartedAt, s.log);
    H.QuantileMonotone(ls, 0.50, 0.90);
    H.QuantileMonotone(ls, 0.90, 0.95);
    H.QuantileMonotone(ls, 0.95, 0.99);
  }

  // ----- the order in which workers record does not matter

  lemma {:induction false} LatenciesCount(start: int, log: seq<Completion>, v: int)
    ensures multiset(Latencies(start, log))[v] == CountBy(LatencyIs(start, v), log)
  {
    if log != [] {
      LatenciesCount(start, log[..|log| - 1], v);
    }
  }

  lemma {:induction false} LatenciesPermutation(start: int, a: seq<Completion>, b: seq<Completion>)
    requires multiset(a) == multiset(b)
    ensures multiset(Latencies(start, a)) == multiset(Latencies(start, b))
  {
    forall v ensures multiset(Latencies(start, a))[v] == multiset(Latencies(start, b))[v] {
      LatenciesCount(start, a, v);
      LatenciesCount(start, b, v);
      CountPermutation(LatencyIs(start, v), a, b);
    }
  }

  lemma {:induction false} KindsPermutation(start: int, a: seq<Completion>, b: seq<Completion>)
    requires multiset(a) == multiset(b)
    ensures OperationCountsOf(start, a) == OperationCountsOf(start, b)
  {
    forall k: nat | k < KINDS ensures CountBy(OfKind(start, k), a) == CountBy(OfKind(start, k), b) {
      CountPermutation(OfKind(start, k), a, b);
    }
  }

  /** Any two orders of the same completions give the same sample, but for the latest error. */
  lemma {:induction false} OrderIndependent(s: Statistics, t: Statistics, now: int)
    requires multiset(s.log) == multiset(t.log)
    requires t == s.(log := t.log, latestError := t.latestError)
    ensures SampleOf(t, now) == SampleOf(s, now).(latestError := t.latestError)
  {
    var start := s.measurementStartedAt;
    CountPermutation(Measured(start), s.log, t.log);
    CountPermutation(Succeeded(start), s.log, t.log);
    CountPermutation(Failed(start), s.log, t.log);
    KindsPermutation(start, s.log, t.log);
    LatenciesPermutation(start, s.log, t.log);
    LatencySamplePermutation(Latencies(start, s.log), Latencies(start, t.log));
  }

  lemma {:induction false} LatencySamplePermutation(a: seq<int>, b: seq<int>)
    requires multiset(a) == multiset(b)
    ensures LatencySampleOf(a) == LatencySampleOf(b)
  {
    H.HistogramOrderIndependent(a, b);
  }

  /** The latest error is always compacted. */
  ghost predicate CompactError(s: Statistics) {
    IsCompact(s.latestError)
  }

}
