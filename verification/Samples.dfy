/** The sample a run reports and the views built from it: internal/benchmarkrun/sample.go. */
module Samples {
  import opened ErrorText

  datatype SampleBucket = SampleBucket(upperBoundSeconds: real, cumulativeCount: nat)

  datatype LatencySample = LatencySample(
    minMilliseconds: real,
    maxMilliseconds: real,
    averageMilliseconds: real,
    p50Milliseconds: real,
    p90Milliseconds: real,
    p95Milliseconds: real,
    p99Milliseconds: real,
    buckets: seq<SampleBucket>,
    count: nat,
    sumSeconds: real)

  /** One count, or one rate, for each kind of operation. */
  datatype PerKind<T> = PerKind(
    pointRead: T,
    rangeRead: T,
    historyInsert: T,
    accountUpdate: T,
    transaction: T,
    join: T,
    aggregation: T,
    lockContention: T,
    hotUpdate: T)

  datatype Sample = Sample(
    latency: LatencySample,
    elapsedSeconds: real,
    totalOperations: nat,
    successfulOperations: nat,
    failedOperations: nat,
    activeClients: nat,
    configuredClients: int,
    operationCounts: PerKind<nat>,
    latestError: Text)

  const ZERO_SAMPLE: Sample := Sample(
    LatencySample(0.0, 0.0, 0.0, 0.0, 0.0, 0.0, 0.0, [], 0, 0.0),
    0.0, 0, 0, 0, 0, 0, PerKind(0, 0, 0, 0, 0, 0, 0, 0, 0), [])

  function RatePerSecond(count: nat, elapsedSeconds: real): (rate: real) {
    if count == 0 || elapsedSeconds <= 0.0 then 0.0 else count as real / elapsedSeconds
  }

  datatype Stats = Stats(
    latency: LatencySample,
    tps: real,
    totalOperations: nat,
    successfulOperations: nat,
    failedOperations: nat,
    activeClients: nat,
    configuredClients: int,
    elapsedSeconds: real,
    operationRates: PerKind<real>,
    latestError: Text)

  /** Sample.Stats. */
  function StatsOf(s: Sample): (stats: Stats) {
    var c, e := s.operationCounts, s.elapsedSeconds;
    Stats(
      s.latency.(buckets := [], count := 0, sumSeconds := 0.0),
      RatePerSecond(s.totalOperations, e),
      s.totalOperations, s.successfulOperations, s.failedOperations,
      s.activeClients, s.configuredClients, e,
      PerKind(
        RatePerSecond(c.pointRead, e), RatePerSecond(c.rangeRead, e), RatePerSecond(c.historyInsert, e),
        RatePerSecond(c.accountUpdate, e), RatePerSecond(c.transaction, e), RatePerSecond(c.join, e),
        RatePerSecond(c.aggregation, e), RatePerSecond(c.lockContention, e), RatePerSecond(c.hotUpdate, e)),
      s.latestError)
  }

  function SumOfCounts(c: PerKind<nat>): (sum: nat) {
    c.pointRead + c.rangeRead + c.historyInsert + c.accountUpdate + c.transaction
    + c.join + c.aggregation + c.lockContention + c.hotUpdate
  }

  function SumOfRates(r: PerKind<real>): (sum: real) {
    r.pointRead + r.rangeRead + r.historyInsert + r.accountUpdate + r.transaction
    + r.join + r.aggregation + r.lockContention + r.hotUpdate
  }

  lemma {:induction false} RateAdds(a: nat, b: nat, e: real)
    ensures RatePerSecond(a + b, e) == RatePerSecond(a, e) + RatePerSecond(b, e)
  {
  }

  /** Over the reals the nine operation rates add up to the rate of the nine counts together. */
  lemma {:induction false} RatesSum(s: Sample)
    ensures SumOfRates(StatsOf(s).operationRates)
         == RatePerSecond(SumOfCounts(s.operationCounts), s.elapsedSeconds)
  {
    var c, e := s.operationCounts, s.elapsedSeconds;
    RateAdds(c.pointRead, c.rangeRead, e);
    var n2 := c.pointRead + c.rangeRead;
    RateAdds(n2, c.historyInsert, e);
    var n3 := n2 + c.historyInsert;
    RateAdds(n3, c.accountUpdate, e);
    var n4 := n3 + c.accountUpdate;
    RateAdds(n4, c.transaction, e);
    var n5 := n4 + c.transaction;
    RateAdds(n5, c.join, e);
    var n6 := n5 + c.join;
    RateAdds(n6, c.aggregation, e);
    var n7 := n6 + c.aggregation;
    RateAdds(n7, c.lockContention, e);
    var n8 := n7 + c.lockContention;
    RateAdds(n8, c.hotUpdate, e);
  }
}
