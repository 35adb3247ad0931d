/**
  What callers see: the answers of Start, Stop and Results in every reachable state, the pace a
  run is kept at, and results as counts of what the operations of the run returned.
 */
module ServiceAnswers {
  import opened Wrappers
  import opened ErrorText
  import opened Options
  import opened Sums
  import opened Samples
  import opened RunStatistics
  import opened Coordinators
  import opened Lifecycle
  import opened Projections
  import opened Accounting
  import P = WorkerPool
  import R = PoolRuns

  // ----- a starting run shows nothing of earlier ones

  /** The statistics of nothing at all. */
  const NOTHING: Stats := Stats(
    LatencySample(0.0, 0.0, 0.0, 0.0, 0.0, 0.0, 0.0, [], 0, 0.0),
    0.0, 0, 0, 0, 0, 0, 0.0, PerKind(0.0, 0.0, 0.0, 0.0, 0.0, 0.0, 0.0, 0.0, 0.0), [])

  /** While a run is active and not yet held, the sample kept is empty. */
  ghost predicate FreshSample(c: Coord) {
    ActiveStatus(c.state.status) && c.run.None? ==> IsEmpty(c.sample)
  }

  ghost predicate IsEmpty(r: Sample) {
    && r.totalOperations == r.successfulOperations == r.failedOperations == 0
    && r.activeClients == 0 && r.configuredClients == 0 && r.elapsedSeconds == 0.0
    && r.operationCounts == PerKind(0, 0, 0, 0, 0, 0, 0, 0, 0)
    && r.latency == NOTHING.latency && r.latestError == []
  }

  lemma {:induction false} FreshStep(s: Service, e: Event)
    requires ControlInv(s.k) && FreshSample(s.k.c) && Enabled(s, e)
    ensures FreshSample(Next(s, e).k.c)
  {
  }

  lemma {:induction false} FreshOverRuns(run: seq<Service>, events: seq<Event>, i: nat)
    requires IsRun(run, events) && i < |run|
    ensures FreshSample(run[i].k.c)
  {
    if i == 0 {
      return;
    }
    FreshOverRuns(run, events, i - 1);
    assert ControlInv(run[i - 1].k) by { InvOverRuns(run, events, i - 1); }
    assert StepAt(run, events, i - 1);
    FreshStep(run[i - 1], events[i - 1]);
  }

  /**
    Whatever earlier runs recorded, the results of a run that is starting, or was stopped while
    starting, are empty until the run is held.
   */
  lemma {:induction false} StartingShowsNothing(run: seq<Service>, events: seq<Event>, i: nat, live: Sample)
    requires IsRun(run, events) && i < |run|
    requires ActiveStatus(run[i].k.c.state.status) && run[i].k.c.run.None?
    ensures ResultsOf(run[i].k.c, live).stats == NOTHING
  {
    FreshOverRuns(run, events, i);
  }

  // ----- the answers of Start and Stop

  /** An accepted start: a new run id, starting with these options, with no times and no error. */
  lemma {:induction false} StartAnswers(run: seq<Service>, events: seq<Event>, i: nat)
    requires IsRun(run, events) && i < |events| && events[i].StartCall?
    ensures var before, after := run[i].k, run[i + 1].k;
            && !ActiveStatus(before.c.state.status)
            && after.c.state == State(Starting, events[i].options, None, None, [])
            && after.c.runID == before.c.runID + 1 && after.c.runID !in after.cancelled
            && after.starters == map[after.c.runID := Calling(events[i].options)] && after.waiters == map[]
  {
    InvOverRuns(run, events, i);
    assert StepAt(run, events, i);
    assert run[i].k.starters.Keys == {} && run[i].k.waiters.Keys == {};
  }

  /** No start time before the commit. */
  ghost predicate NoStartTime(k: Control) {
    k.c.runID in k.starters ==> k.c.state.startedAt == None
  }

  lemma {:induction false} NoStartTimeStep(s: Service, e: Event)
    requires ControlInv(s.k) && NoStartTime(s.k) && Enabled(s, e)
    ensures NoStartTime(Next(s, e).k)
  {
  }

  lemma {:induction false} NoStartTimeOverRuns(run: seq<Service>, events: seq<Event>, i: nat)
    requires IsRun(run, events) && i < |run|
    ensures NoStartTime(run[i].k)
  {
    if i == 0 {
      return;
    }
    NoStartTimeOverRuns(run, events, i - 1);
    assert ControlInv(run[i - 1].k) by { InvOverRuns(run, events, i - 1); }
    assert StepAt(run, events, i - 1);
    NoStartTimeStep(run[i - 1], events[i - 1]);
  }

  /** A commit: the run is held, running unless it is being stopped, with this start time. */
  lemma {:induction false} CommitAnswers(run: seq<Service>, events: seq<Event>, i: nat)
    requires IsRun(run, events) && i < |events| && events[i].StartCommits?
    ensures var before, after := run[i].k.c, run[i + 1].k.c;
            && after.run == Some(events[i].id) && after.runID == before.runID == events[i].id
            && after.state == State(if before.state.status.Stopping? then Stopping else Running,
                                    before.state.options, Some(events[i].now), None, [])
            && run[i + 1].k.waiters == map[events[i].id := Waiting]
  {
    assert ControlInv(run[i].k) by { InvOverRuns(run, events, i); }
    NoStartTimeOverRuns(run, events, i);
    assert StepAt(run, events, i);
  }

  /** A failed start has no start time; its stop time is that of the failure. */
  lemma {:induction false} FailAnswers(run: seq<Service>, events: seq<Event>, i: nat)
    requires IsRun(run, events) && i < |events| && events[i].StartFails?
    ensures var after := run[i + 1].k.c.state;
            && Terminal(after.status) && after.startedAt == None && after.stoppedAt == Some(events[i].now)
            && (after.status.Stopped? ==> after.error == [])
  {
    assert ControlInv(run[i].k) by { InvOverRuns(run, events, i); }
    NoStartTimeOverRuns(run, events, i);
    assert StepAt(run, events, i);
  }

  /** Stop: an active run is stopping and its context cancelled; otherwise nothing changes. */
  lemma {:induction false} StopAnswers(run: seq<Service>, events: seq<Event>, i: nat)
    requires IsRun(run, events) && i < |events| && events[i].StopCall?
    ensures var before, after := run[i].k, run[i + 1].k;
            && run[i + 1].pools == run[i].pools
            && (ActiveStatus(before.c.state.status) ==>
                  && after.c == before.c.(state := before.c.state.(status := Stopping))
                  && after.cancelled == before.cancelled + {before.c.runID})
            && (!ActiveStatus(before.c.state.status) ==> after == before)
            && after.starters == before.starters && after.waiters == before.waiters
  {
    InvOverRuns(run, events, i);
    assert StepAt(run, events, i);
    if run[i].k.c.state.status.Stopping? {
      assert run[i].k.cancelled == run[i].k.cancelled + {run[i].k.c.runID};
    }
  }

  // ----- the pace

  /** The ticker for a target: none without one, else the longest interval that fits, at least a nanosecond. */
  ghost predicate Paces(ticker: Option<int>, targetTPS: Option<int>) {
    match targetTPS
    case None => ticker == None
    case Some(t) => t >= 1 && ticker.Some? && FitsLongest(ticker.value, t)
  }

  ghost predicate FitsLongest(d: int, t: int) {
    d >= 1 && (d + 1) * t > 1_000_000_000 && (d * t <= 1_000_000_000 || d == 1)
  }

  lemma {:induction false} IntervalFits(t: int)
    requires t >= 1
    ensures FitsLongest(P.Interval(t), t)
  {
    P.IntervalExact(t);
  }

  predicate GateOpen(p: P.Pool) {
    p.closer.Awaiting? || p.closer.Drained?
  }

  /** Until the gate closes, a held run is paced by the target of the state's options. */
  ghost predicate PaceAgrees(s: Service) {
    forall id :: id in s.pools && Held(s.k, id) && GateOpen(s.pools[id]) ==>
      Paces(s.pools[id].ticker, s.k.c.state.options.targetTPS)
  }

  lemma {:induction false} NewPaces(o: StartOptions, now: int)
    requires RunnerAccepts(o)
    ensures Paces(P.NewPool(o, now).ticker, o.targetTPS)
  {
    if o.targetTPS.Some? {
      IntervalFits(o.targetTPS.value);
    }
  }

  lemma {:induction false} AlteredPace(p: P.Pool, a: AlterOptions, q: P.Pool)
    requires ValidateAlter(a).None? && P.Altered(p, a, q)
    ensures q.ticker == (if a.targetTPS.Some? then Some(P.Interval(a.targetTPS.value)) else p.ticker)
    ensures q.closer == p.closer
  {
    P.AlteredFrame(p, a, q);
  }

  lemma {:induction false} StepPace(p: P.Pool, step: P.Step)
    requires P.Enabled(p, step, true)
    ensures GateOpen(P.Next(p, step)) ==> GateOpen(p) && P.Next(p, step).ticker == p.ticker
  {
  }

  lemma {:induction false} HandOverPace(s: Service, id: nat, now: int)
    requires ControlInv(s.k) && PaceAgrees(s) && Enabled(s, RunnerHandsOver(id, now))
    ensures PaceAgrees(Next(s, RunnerHandsOver(id, now)))
  {
    NewPaces(s.k.starters[id].options, now);
    assert id == s.k.c.runID;
  }

  lemma {:induction false} AlterPace(s: Service, a: AlterOptions, q: P.Pool)
    requires ControlInv(s.k) && PaceAgrees(s) && Enabled(s, AlterCall(a, q))
    ensures PaceAgrees(Next(s, AlterCall(a, q)))
  {
    AlteredPace(s.pools[s.k.c.run.value], a, q);
    if a.targetTPS.Some? {
      IntervalFits(a.targetTPS.value);
    }
    assert s.k.c.run.value == s.k.c.runID;
    forall id | id in s.pools && Held(s.k, id) ensures id == s.k.c.runID {
    }
  }

  lemma {:induction false} PaceStep(s: Service, e: Event)
    requires ControlInv(s.k) && PaceAgrees(s) && Enabled(s, e)
    ensures PaceAgrees(Next(s, e))
  {
    match e
    case RunnerHandsOver(id, now) => HandOverPace(s, id, now);
    case AlterCall(a, q) => AlterPace(s, a, q);
    case PoolMoves(id, step) => StepPace(s.pools[id], step);
    case _ => OtherPace(s, e);
  }

  lemma {:induction false} OtherPace(s: Service, e: Event)
    requires ControlInv(s.k) && PaceAgrees(s) && Enabled(s, e)
    requires !e.RunnerHandsOver? && !e.AlterCall? && !e.PoolMoves?
    ensures PaceAgrees(Next(s, e))
  {
    var r := Next(s, e);
    forall id | id in r.pools && Held(r.k, id) && GateOpen(r.pools[id])
      ensures Paces(r.pools[id].ticker, r.k.c.state.options.targetTPS)
    {
      assert id in s.pools && Held(s.k, id) && r.k.c.state.options == s.k.c.state.options;
    }
  }

  /**
    In every reachable state, until its gate closes the run held is paced at the longest interval
    that fits the state's target_tps, and not at all without one.
   */
  lemma {:induction false} PaceOverRuns(run: seq<Service>, events: seq<Event>, i: nat)
    requires IsRun(run, events) && i < |run|
    ensures PaceAgrees(run[i])
  {
    if i == 0 {
      return;
    }
    PaceOverRuns(run, events, i - 1);
    assert ControlInv(run[i - 1].k) by { InvOverRuns(run, events, i - 1); }
    assert StepAt(run, events, i - 1);
    PaceStep(run[i - 1], events[i - 1]);
  }

  // ----- the results

  /** A rate per second; zero when no time has passed. */
  ghost predicate IsRate(rate: real, count: nat, seconds: real) {
    if seconds > 0.0 then rate * seconds == count as real else rate == 0.0
  }

  lemma {:induction false} RateExactly(count: nat, seconds: real)
    ensures IsRate(RatePerSecond(count, seconds), count, seconds)
  {
  }

  ghost predicate AreRates(r: PerKind<real>, c: PerKind<nat>, seconds: real) {
    && IsRate(r.pointRead, c.pointRead, seconds) && IsRate(r.rangeRead, c.rangeRead, seconds)
    && IsRate(r.historyInsert, c.historyInsert, seconds) && IsRate(r.accountUpdate, c.accountUpdate, seconds)
    && IsRate(r.transaction, c.transaction, seconds) && IsRate(r.join, c.join, seconds)
    && IsRate(r.aggregation, c.aggregation, seconds) && IsRate(r.lockContention, c.lockContention, seconds)
    && IsRate(r.hotUpdate, c.hotUpdate, seconds)
  }

  lemma {:induction false} RatesExactly(s: Sample)
    ensures AreRates(StatsOf(s).operationRates, s.operationCounts, s.elapsedSeconds)
    ensures IsRate(StatsOf(s).tps, s.totalOperations, s.elapsedSeconds)
  {
    var c, e := s.operationCounts, s.elapsedSeconds;
    RateExactly(s.totalOperations, e);
    RateExactly(c.pointRead, e);
    RateExactly(c.rangeRead, e);
    RateExactly(c.historyInsert, e);
    RateExactly(c.accountUpdate, e);
    RateExactly(c.transaction, e);
    RateExactly(c.join, e);
    RateExactly(c.aggregation, e);
    RateExactly(c.lockContention, e);
    RateExactly(c.hotUpdate, e);
  }

  /** Each figure of the statistics is the one of the sample; rates are per second of its elapsed time. */
  ghost predicate Shows(stats: Stats, s: Sample) {
    && stats.totalOperations == s.totalOperations
    && stats.successfulOperations == s.successfulOperations && stats.failedOperations == s.failedOperations
    && stats.activeClients == s.activeClients && stats.configuredClients == s.configuredClients
    && stats.elapsedSeconds == s.elapsedSeconds
    && IsRate(stats.tps, s.totalOperations, s.elapsedSeconds)
    && AreRates(stats.operationRates, s.operationCounts, s.elapsedSeconds)
    && ShowsLatency(stats.latency, s.latency)
  }

  ghost predicate ShowsLatency(l: LatencySample, s: LatencySample) {
    && l.minMilliseconds == s.minMilliseconds && l.maxMilliseconds == s.maxMilliseconds
    && l.averageMilliseconds == s.averageMilliseconds
    && l.p50Milliseconds == s.p50Milliseconds && l.p90Milliseconds == s.p90Milliseconds
    && l.p95Milliseconds == s.p95Milliseconds && l.p99Milliseconds == s.p99Milliseconds
  }

  lemma {:induction false} NormalizedKeeps(s: State, sample: Sample)
    ensures Normalized(s, sample) == sample.(latestError := Normalized(s, sample).latestError)
    ensures Normalized(s, sample).latestError in {[], sample.latestError}
  {
  }

  /** Results, figure by figure, of the live sample if a run is held and of the kept one otherwise. */
  lemma {:induction false} ResultsShow(c: Coord, live: Sample)
    ensures var r := ResultsOf(c, live);
            && State(r.status, r.options, r.startedAt, r.stoppedAt, r.error) == c.state
            && Shows(r.stats, if c.run.Some? then live else c.sample)
  {
    var sample := if c.run.Some? then live else c.sample;
    NormalizedKeeps(c.state, sample);
    RatesExactly(Normalized(c.state, sample));
  }

  // ----- the results of a run are counts of what its operations returned

  /** Run `id` was handed over by event h - 1. */
  ghost predicate HandedOverBy(run: seq<Service>, events: seq<Event>, h: nat, id: nat) {
    && 0 < h <= |events| < |run|
    && events[h - 1].RunnerHandsOver? && events[h - 1].id == id && id in run[h - 1].k.starters
  }

  lemma {:induction false} StartedBy(run: seq<Service>, events: seq<Event>, h: nat, id: nat)
    requires IsRun(run, events) && h < |run| && id in run[h].pools && NotBefore(run, h, id)
    ensures HandedOverBy(run, events, h, id)
    ensures RunnerAccepts(run[h - 1].k.starters[id].options)
    ensures run[h].pools[id] == P.NewPool(run[h - 1].k.starters[id].options, events[h - 1].now)
  {
    assert StepAt(run, events, h - 1);
  }

  lemma {:induction false} PoolsEnds(run: seq<Service>, h: nat, j: nat, id: nat)
    requires PresentFrom(run, h, j, id)
    ensures var pools := PoolsOf(run, h, j, id);
            |pools| == j - h + 1 && pools[0] == run[h].pools[id] && pools[j - h] == run[j].pools[id]
  {
  }

  lemma {:induction false} SampleOfPools(
    pools: seq<P.Pool>, moves: seq<R.Move>, n: nat, options: StartOptions, startedAt: int, now: int)
    requires R.IsRun(pools, moves) && n < |pools|
    requires RunnerAccepts(options) && pools[0] == P.NewPool(options, startedAt)
    ensures Accounts(SampleOf(pools[n].stats, now), WarmUpEnds(options, startedAt), Recordings(moves, n))
  {
    SampleOfRun(pools, moves, n, options, startedAt, now);
  }

  /**
    In every reachable state, the sample of every run counts the operations that were returned to
    that run's workers, recorded, and ended after the warm-up, which runs from the hand-over.
   */
  lemma {:induction false} SampleOverRuns(run: seq<Service>, events: seq<Event>, j: nat, id: nat, now: int)
    returns (h: nat)
    requires IsRun(run, events) && j < |run| && id in run[j].pools
    ensures h <= j && HandedOverBy(run, events, h, id)
    ensures Accounts(SampleOf(run[j].pools[id].stats, now),
                     WarmUpEnds(run[h - 1].k.starters[id].options, events[h - 1].now),
                     Recordings(MovesOf(run, events, h, j, id), j - h))
  {
    h := Projected(run, events, j, id);
    StartedBy(run, events, h, id);
    PoolsEnds(run, h, j, id);
    SampleOfPools(PoolsOf(run, h, j, id), MovesOf(run, events, h, j, id), j - h,
                  run[h - 1].k.starters[id].options, events[h - 1].now, now);
  }

  /** So do the results while the run is held, and the sample kept when it ends. */
  lemma {:induction false} ResultsOverRuns(run: seq<Service>, events: seq<Event>, j: nat, now: int) returns (h: nat)
    requires IsRun(run, events) && j < |run| && run[j].k.c.run.Some?
    ensures run[j].k.c.run.value in run[j].pools
    ensures var id := run[j].k.c.run.value;
            var live := SampleOf(run[j].pools[id].stats, now);
            && h <= j && HandedOverBy(run, events, h, id)
            && Shows(ResultsOf(run[j].k.c, live).stats, live)
            && Accounts(live, WarmUpEnds(run[h - 1].k.starters[id].options, events[h - 1].now),
                        Recordings(MovesOf(run, events, h, j, id), j - h))
  {
    CoordinatorOverRuns(run, events, j);
    var id := run[j].k.c.run.value;
    h := SampleOverRuns(run, events, j, id, now);
    ResultsShow(run[j].k.c, SampleOf(run[j].pools[id].stats, now));
  }

  lemma {:induction false} KeptOverRuns(run: seq<Service>, events: seq<Event>, j: nat) returns (h: nat)
    requires IsRun(run, events) && j < |events| && events[j].RunEnds?
    ensures var id := events[j].id;
            && h <= j && HandedOverBy(run, events, h, id)
            && Accounts(run[j + 1].k.c.sample, WarmUpEnds(run[h - 1].k.starters[id].options, events[h - 1].now),
                        Recordings(MovesOf(run, events, h, j, id), j - h))
  {
    RunOutcome(run, events, j);
    h := SampleOverRuns(run, events, j, events[j].id, events[j].sampledAt);
  }

  /** While a run is held the results show its live workers, and the clients of the state's options. */
  lemma {:induction false} ClientsShown(run: seq<Service>, events: seq<Event>, j: nat, now: int)
    requires IsRun(run, events) && j < |run| && run[j].k.c.run.Some?
    ensures run[j].k.c.run.value in run[j].pools
    ensures var p := run[j].pools[run[j].k.c.run.value];
            var stats := ResultsOf(run[j].k.c, SampleOf(p.stats, now)).stats;
            && stats.activeClients == |P.Active(p)|
            && stats.configuredClients == run[j].k.c.state.options.clients
  {
    ClientsAgreeOverRuns(run, events, j);
    var p := run[j].pools[run[j].k.c.run.value];
    assert P.CountsAgree(p) by {
      InvOverRuns(run, events, j);
      assert P.Inv(p);
    }
    NormalizedKeeps(run[j].k.c.state, SampleOf(p.stats, now));
  }
}
