/**
  The whole service: the coordinator, the calls of Start still in flight, the goroutines
  waiting for a run, and the worker pool of every run so far.

  Start is two critical sections with the runner's work between them, waitForRun is a goroutine
  of its own, and Stop, Alter and every step of every pool may come anywhere in between.
 */
module Lifecycle {
  import opened Wrappers
  import opened ErrorText
  import opened Options
  import opened Samples
  import opened RunStatistics
  import opened Coordinators
  import P = WorkerPool

  /** An accepted Start between its two critical sections. */
  datatype Starter =
    | Calling(options: StartOptions)
    | GotRun(options: StartOptions)
    | GotError(options: StartOptions, error: Failure)

  /** A goroutine in waitForRun. */
  datatype Waiter = Waiting | Woken(error: Option<Failure>)

  /** The coordinator with the calls in flight, by run id, and the runs whose context is cancelled. */
  datatype Control = Control(
    c: Coord,
    starters: map<nat, Starter>,
    waiters: map<nat, Waiter>,
    cancelled: set<nat>)

  datatype Service = Service(k: Control, pools: map<nat, P.Pool>)

  const START: Service := Service(Control(INITIAL, map[], map[], {}), map[])

  /** The options runner.Start hands a run over for, once its setup statements succeed. */
  predicate RunnerAccepts(o: StartOptions) {
    && o.scale >= 1 && o.clients >= 1 && o.durationSeconds >= 1
    && 0 <= o.warmupSeconds < o.durationSeconds
    && !o.profile.OtherProfile?
    && (o.targetTPS.Some? ==> o.targetTPS.value >= 1)
  }

  // ----- the control part of each event

  function StartCalled(k: Control, options: StartOptions): (r: Control)
    requires !ActiveStatus(k.c.state.status)
  {
    k.(c := BeginStart(k.c, options), starters := k.starters[k.c.runID + 1 := Calling(options)])
  }

  /** The runner has returned to the starter. */
  function Returned(k: Control, id: nat, starter: Starter): (r: Control) {
    k.(starters := k.starters[id := starter])
  }

  function Committed(k: Control, id: nat, now: int): (r: Control) {
    k.(c := CommitStart(k.c, id, now),
       starters := k.starters - {id},
       waiters := if k.c.runID == id then k.waiters[id := Waiting] else k.waiters)
  }

  function StartFailed(k: Control, id: nat, now: int): (r: Control)
    requires id in k.starters && k.starters[id].GotError?
  {
    k.(c := FailStart(k.c, id, k.starters[id].options, k.starters[id].error, now), starters := k.starters - {id})
  }

  function StopCalled(k: Control): (r: Control) {
    k.(c := StopRun(k.c),
       cancelled := if StopCancels(k.c).Some? then k.cancelled + {StopCancels(k.c).value} else k.cancelled)
  }

  function AlterCalled(k: Control, options: StartOptions): (r: Control) {
    k.(c := k.c.(state := k.c.state.(options := options)))
  }

  function Awoken(k: Control, id: nat, error: Option<Failure>): (r: Control) {
    k.(waiters := k.waiters[id := Woken(error)])
  }

  function Ended(k: Control, id: nat, sample: Sample, now: int): (r: Control)
    requires id in k.waiters && k.waiters[id].Woken?
  {
    k.(c := FinishRun(k.c, id, k.waiters[id].error, sample, now), waiters := k.waiters - {id})
  }

  // ----- the events

  datatype Event =
    | StartCall(options: StartOptions)
    | RunnerHandsOver(id: nat, now: int)
    | RunnerFails(id: nat, error: Failure)
    | StartCommits(id: nat, now: int)
    | StartFails(id: nat, now: int)
    | StopCall
    | AlterCall(alter: AlterOptions, after: P.Pool)
    | WaitReturns(id: nat)
    | RunEnds(id: nat, sampledAt: int, now: int) // the run's clock at Sample, the coordinator's at the end
    | PoolMoves(id: nat, step: P.Step)

  /** Requests that are refused change nothing and are left out. */
  ghost predicate Enabled(s: Service, e: Event) {
    var k := s.k;
    match e
    case StartCall(_) => !ActiveStatus(k.c.state.status)
    case RunnerHandsOver(id, _) =>
      id in k.starters && k.starters[id].Calling? && RunnerAccepts(k.starters[id].options)
    case RunnerFails(id, _) => id in k.starters && k.starters[id].Calling?
    case StartCommits(id, _) => id in k.starters && k.starters[id].GotRun?
    case StartFails(id, _) => id in k.starters && k.starters[id].GotError?
    case StopCall => true
    case AlterCall(a, q) =>
      && k.c.state.status.Running? && k.c.run.Some? && k.c.run.value in s.pools
      && ApplyAlter(k.c.state.options, a).Ok?
      && ValidateAlter(a).None? && P.Altered(s.pools[k.c.run.value], a, q)
    case WaitReturns(id) =>
      id in k.waiters && k.waiters[id].Waiting? && id in s.pools && s.pools[id].closer.DoneClosed?
    case RunEnds(id, _, _) => id in k.waiters && k.waiters[id].Woken? && id in s.pools
    case PoolMoves(id, step) => id in s.pools && P.Enabled(s.pools[id], step, id in k.cancelled)
  }

  ghost function Next(s: Service, e: Event): (r: Service)
    requires Enabled(s, e)
  {
    var k := s.k;
    match e
    case StartCall(options) => s.(k := StartCalled(k, options))
    case RunnerHandsOver(id, now) =>
      Service(Returned(k, id, GotRun(k.starters[id].options)), s.pools[id := P.NewPool(k.starters[id].options, now)])
    case RunnerFails(id, error) => s.(k := Returned(k, id, GotError(k.starters[id].options, error)))
    case StartCommits(id, now) => s.(k := Committed(k, id, now))
    case StartFails(id, now) => s.(k := StartFailed(k, id, now))
    case StopCall => s.(k := StopCalled(k))
    case AlterCall(a, q) =>
      Service(AlterCalled(k, ApplyAlter(k.c.state.options, a).value), s.pools[k.c.run.value := q])
    case WaitReturns(id) => s.(k := Awoken(k, id, s.pools[id].finalErr))
    case RunEnds(id, at, now) => s.(k := Ended(k, id, SampleOf(s.pools[id].stats, at), now))
    case PoolMoves(id, step) => s.(pools := s.pools[id := P.Next(s.pools[id], step)])
  }

  // ----- the invariant of the control part

  /**
    Exactly one starter or waiter is in flight when the status is active, none otherwise, and
    it holds the current run id.
   */
  ghost predicate OneInFlight(k: Control) {
    var id := k.c.runID;
    && k.starters.Keys <= {id} && k.waiters.Keys <= {id}
    && !(id in k.starters && id in k.waiters)
    && (ActiveStatus(k.c.state.status) <==> id in k.starters || id in k.waiters)
    && (k.c.state.status.Starting? ==> id in k.starters)
    && (k.c.state.status.Running? ==> id in k.waiters)
    && (k.c.state.status.Idle? <==> id == 0)
  }

  /** The handles held: cancel iff active, the run iff it has been handed over and not ended. */
  ghost predicate HandlesAgree(k: Control) {
    && k.c.cancel == (if ActiveStatus(k.c.state.status) then Some(k.c.runID) else None)
    && k.c.run == (if k.c.runID in k.waiters then Some(k.c.runID) else None)
  }

  ghost predicate StateAgrees(k: Control) {
    var st := k.c.state;
    && (k.c.runID in k.waiters ==> st.startedAt.Some?)
    && (st.stoppedAt.Some? <==> Terminal(st.status))
    && (st.error != [] ==> st.status.Failed?)
    && (k.c.runID in k.starters ==> k.starters[k.c.runID].options == st.options)
  }

  /** The context of the current run is cancelled exactly when the run is stopping, or was when it ended. */
  ghost predicate ContextsAgree(k: Control) {
    && (forall id :: id in k.cancelled ==> 1 <= id <= k.c.runID)
    && (ActiveStatus(k.c.state.status) ==> (k.c.state.status.Stopping? <==> k.c.runID in k.cancelled))
  }

  ghost predicate ControlInv(k: Control) {
    OneInFlight(k) && HandlesAgree(k) && StateAgrees(k) && ContextsAgree(k)
  }

  lemma {:induction false} StartCalledInv(k: Control, options: StartOptions)
    requires ControlInv(k) && !ActiveStatus(k.c.state.status)
    ensures ControlInv(StartCalled(k, options))
  {
  }

  lemma {:induction false} ReturnedInv(k: Control, id: nat, starter: Starter)
    requires ControlInv(k) && id in k.starters && starter.options == k.starters[id].options
    ensures ControlInv(Returned(k, id, starter))
  {
  }

  lemma {:induction false} CommittedInv(k: Control, id: nat, now: int)
    requires ControlInv(k) && id in k.starters
    ensures ControlInv(Committed(k, id, now)) && id == k.c.runID
  {
  }

  lemma {:induction false} StartFailedInv(k: Control, id: nat, now: int)
    requires ControlInv(k) && id in k.starters && k.starters[id].GotError?
    ensures ControlInv(StartFailed(k, id, now)) && id == k.c.runID
  {
  }

  lemma {:induction false} StopCalledInv(k: Control)
    requires ControlInv(k)
    ensures ControlInv(StopCalled(k))
  {
  }

  lemma {:induction false} AlterCalledInv(k: Control, options: StartOptions)
    requires ControlInv(k) && k.c.state.status.Running?
    ensures ControlInv(AlterCalled(k, options))
  {
  }

  lemma {:induction false} AwokenInv(k: Control, id: nat, error: Option<Failure>)
    requires ControlInv(k) && id in k.waiters
    ensures ControlInv(Awoken(k, id, error)) && id == k.c.runID
  {
  }

  lemma {:induction false} EndedInv(k: Control, id: nat, sample: Sample, now: int)
    requires ControlInv(k) && id in k.waiters && k.waiters[id].Woken?
    ensures ControlInv(Ended(k, id, sample, now)) && id == k.c.runID
  {
  }

  /** Every event keeps the control invariant. */
  lemma {:induction false} EventControl(s: Service, e: Event)
    requires ControlInv(s.k) && Enabled(s, e)
    ensures ControlInv(Next(s, e).k)
  {
    var k := s.k;
    match e
    case StartCall(options) => StartCalledInv(k, options);
    case RunnerHandsOver(id, _) => ReturnedInv(k, id, GotRun(k.starters[id].options));
    case RunnerFails(id, error) => ReturnedInv(k, id, GotError(k.starters[id].options, error));
    case StartCommits(id, now) => CommittedInv(k, id, now);
    case StartFails(id, now) => StartFailedInv(k, id, now);
    case StopCall => StopCalledInv(k);
    case AlterCall(a, _) => AlterCalledInv(k, ApplyAlter(k.c.state.options, a).value);
    case WaitReturns(id) => AwokenInv(k, id, s.pools[id].finalErr);
    case RunEnds(id, at, now) => EndedInv(k, id, SampleOf(s.pools[id].stats, at), now);
    case PoolMoves(_, _) =>
  }

  // ----- the pools

  ghost predicate PoolsGood(pools: map<nat, P.Pool>) {
    forall id :: id in pools ==> P.Inv(pools[id])
  }

  lemma {:induction false} OneMorePoolGood(pools: map<nat, P.Pool>, id: nat, p: P.Pool)
    requires PoolsGood(pools) && P.Inv(p)
    ensures PoolsGood(pools[id := p])
  {
  }

  /** Every event keeps every pool's own invariant. */
  lemma {:induction false} EventPools(s: Service, e: Event)
    requires PoolsGood(s.pools) && Enabled(s, e)
    ensures PoolsGood(Next(s, e).pools)
  {
    match e
    case RunnerHandsOver(id, now) =>
      P.NewPoolInv(s.k.starters[id].options, now);
      OneMorePoolGood(s.pools, id, P.NewPool(s.k.starters[id].options, now));
    case AlterCall(a, q) =>
      P.AlteredInv(s.pools[s.k.c.run.value], a, q);
      OneMorePoolGood(s.pools, s.k.c.run.value, q);
    case PoolMoves(id, step) =>
      P.StepInv(s.pools[id], step);
      OneMorePoolGood(s.pools, id, P.Next(s.pools[id], step));
    case _ =>
  }

  /** A starter that got a run, or a waiter, holds the pool of the run. */
  predicate Held(k: Control, id: nat) {
    (id in k.starters && k.starters[id].GotRun?) || id in k.waiters
  }

  /** What the service knows of a pool besides the pool's own invariant. */
  ghost predicate PoolFits(k: Control, id: nat, p: P.Pool) {
    && 1 <= id <= k.c.runID
    && (!Held(k, id) ==> p.closer.DoneClosed?)
    && (id in k.waiters && k.waiters[id].Woken? ==> p.closer.DoneClosed? && k.waiters[id].error == p.finalErr)
    && (Held(k, id) ==> p.stats.configuredClients == k.c.state.options.clients)
  }

  /** Pools are held until they have closed done; only held runs have pools among those in flight. */
  ghost predicate PoolsFit(s: Service) {
    && (forall id :: id in s.pools ==> PoolFits(s.k, id, s.pools[id]))
    && (forall id :: id in s.k.starters || id in s.k.waiters ==> (Held(s.k, id) <==> id in s.pools))
  }

  lemma {:induction false} StartCallFits(s: Service, options: StartOptions)
    requires ControlInv(s.k) && PoolsFit(s) && !ActiveStatus(s.k.c.state.status)
    ensures PoolsFit(s.(k := StartCalled(s.k, options)))
  {
  }

  lemma {:induction false} HandOverFits(s: Service, id: nat, p: P.Pool)
    requires ControlInv(s.k) && PoolsFit(s)
    requires id in s.k.starters && s.k.starters[id].Calling?
    requires p.stats.configuredClients == s.k.starters[id].options.clients
    ensures PoolsFit(Service(Returned(s.k, id, GotRun(s.k.starters[id].options)), s.pools[id := p]))
  {
  }

  lemma {:induction false} RunnerFailsFits(s: Service, id: nat, error: Failure)
    requires ControlInv(s.k) && PoolsFit(s)
    requires id in s.k.starters && s.k.starters[id].Calling?
    ensures PoolsFit(s.(k := Returned(s.k, id, GotError(s.k.starters[id].options, error))))
  {
  }

  lemma {:induction false} CommitFits(s: Service, id: nat, now: int)
    requires ControlInv(s.k) && PoolsFit(s)
    requires id in s.k.starters && s.k.starters[id].GotRun?
    ensures PoolsFit(s.(k := Committed(s.k, id, now)))
  {
  }

  lemma {:induction false} FailFits(s: Service, id: nat, now: int)
    requires ControlInv(s.k) && PoolsFit(s)
    requires id in s.k.starters && s.k.starters[id].GotError?
    ensures PoolsFit(s.(k := StartFailed(s.k, id, now)))
  {
  }

  lemma {:induction false} StopFits(s: Service)
    requires PoolsFit(s)
    ensures PoolsFit(s.(k := StopCalled(s.k)))
  {
  }

  lemma {:induction false} AlterFits(s: Service, options: StartOptions, id: nat, q: P.Pool)
    requires ControlInv(s.k) && PoolsFit(s) && id == s.k.c.runID && id in s.k.waiters && id in s.pools
    requires q.closer == s.pools[id].closer && q.finalErr == s.pools[id].finalErr
    requires q.stats.configuredClients == options.clients
    ensures PoolsFit(Service(AlterCalled(s.k, options), s.pools[id := q]))
  {
  }

  lemma {:induction false} WaitFits(s: Service, id: nat)
    requires ControlInv(s.k) && PoolsFit(s)
    requires id in s.k.waiters && id in s.pools && s.pools[id].closer.DoneClosed?
    ensures PoolsFit(s.(k := Awoken(s.k, id, s.pools[id].finalErr)))
  {
  }

  lemma {:induction false} EndFits(s: Service, id: nat, sample: Sample, now: int)
    requires ControlInv(s.k) && PoolsFit(s) && id in s.k.waiters && s.k.waiters[id].Woken?
    ensures PoolsFit(s.(k := Ended(s.k, id, sample, now)))
  {
  }

  /** A pool step changes neither the configured clients nor, once done is closed, the final error. */
  lemma {:induction false} PoolStepFrame(p: P.Pool, step: P.Step)
    requires P.DrainedAfterFinish(p) && P.Enabled(p, step, true)
    ensures P.Next(p, step).stats.configuredClients == p.stats.configuredClients
    ensures p.closer.DoneClosed? ==>
              P.Next(p, step).closer.DoneClosed? && P.Next(p, step).finalErr == p.finalErr
  {
  }

  lemma {:induction false} MoveFits(s: Service, id: nat, q: P.Pool)
    requires PoolsFit(s) && id in s.pools
    requires q.stats.configuredClients == s.pools[id].stats.configuredClients
    requires s.pools[id].closer.DoneClosed? ==> q.closer.DoneClosed? && q.finalErr == s.pools[id].finalErr
    ensures PoolsFit(s.(pools := s.pools[id := q]))
  {
  }

  lemma {:induction false} EventFits(s: Service, e: Event)
    requires ControlInv(s.k) && PoolsFit(s) && PoolsGood(s.pools) && Enabled(s, e)
    ensures PoolsFit(Next(s, e))
  {
    var k := s.k;
    match e
    case StartCall(options) => StartCallFits(s, options);
    case RunnerHandsOver(id, now) =>
      P.NewPoolInv(k.starters[id].options, now);
      HandOverFits(s, id, P.NewPool(k.starters[id].options, now));
    case RunnerFails(id, error) => RunnerFailsFits(s, id, error);
    case StartCommits(id, now) => CommitFits(s, id, now);
    case StartFails(id, now) => FailFits(s, id, now);
    case StopCall => StopFits(s);
    case AlterCall(a, q) => AlterEventFits(s, a, q);
    case WaitReturns(id) => WaitFits(s, id);
    case RunEnds(id, at, now) => EndFits(s, id, SampleOf(s.pools[id].stats, at), now);
    case PoolMoves(id, step) =>
      PoolStepFrame(s.pools[id], step);
      MoveFits(s, id, P.Next(s.pools[id], step));
  }

  lemma {:induction false} AlterEventFits(s: Service, a: AlterOptions, q: P.Pool)
    requires ControlInv(s.k) && PoolsFit(s) && Enabled(s, AlterCall(a, q))
    ensures PoolsFit(Next(s, AlterCall(a, q)))
  {
    var id := s.k.c.run.value;
    assert id == s.k.c.runID && id in s.k.waiters;
    assert PoolFits(s.k, id, s.pools[id]);
    P.AlteredFrame(s.pools[id], a, q);
    AlterFits(s, ApplyAlter(s.k.c.state.options, a).value, id, q);
  }

  // ----- what is reported

  /** The counts of a sample add up, and its error text is compact. */
  ghost predicate SampleConserved(r: Sample) {
    && r.successfulOperations + r.failedOperations == r.totalOperations
    && r.totalOperations == r.latency.count
    && r.totalOperations == SumOfCounts(r.operationCounts)
    && IsCompact(r.latestError)
  }

  ghost predicate ReportsGood(c: Coord) {
    SampleConserved(c.sample) && IsCompact(c.state.error)
  }

  lemma {:induction false} SampleOfPoolConserved(p: P.Pool, now: int)
    requires P.Inv(p)
    ensures SampleConserved(SampleOf(p.stats, now))
  {
    Conservation(p.stats, now);
  }

  lemma {:induction false} ZeroConserved()
    ensures SampleConserved(ZERO_SAMPLE)
  {
    EmptyIsCompact();
  }

  lemma {:induction false} FailedReports(c: Coord, id: nat, options: StartOptions, error: Failure, now: int)
    requires ReportsGood(c)
    ensures ReportsGood(FailStart(c, id, options, error, now))
  {
    var r := FailStart(c, id, options, error, now);
    assert IsCompact(r.state.error) by { EmptyIsCompact(); }
    assert r.sample == c.sample || r.sample == ZERO_SAMPLE;
    ZeroConserved();
  }

  lemma {:induction false} EndedReports(c: Coord, id: nat, error: Option<Failure>, sample: Sample, now: int)
    requires ReportsGood(c) && SampleConserved(sample)
    ensures ReportsGood(FinishRun(c, id, error, sample, now))
  {
    EmptyIsCompact();
  }

  /** Every event keeps the reports: samples that add up, compact error texts. */
  lemma {:induction false} EventReports(s: Service, e: Event)
    requires PoolsGood(s.pools) && ReportsGood(s.k.c) && Enabled(s, e)
    ensures ReportsGood(Next(s, e).k.c)
  {
    match e
    case StartCall(_) =>
      EmptyIsCompact();
    case StartCommits(_, _) => EmptyIsCompact();
    case StartFails(id, now) =>
      FailedReports(s.k.c, id, s.k.starters[id].options, s.k.starters[id].error, now);
    case RunEnds(id, at, now) =>
      SampleOfPoolConserved(s.pools[id], at);
      EndedReports(s.k.c, id, s.k.waiters[id].error, SampleOf(s.pools[id].stats, at), now);
    case _ =>
  }

  // ----- over whole runs

  ghost predicate Inv(s: Service) {
    ControlInv(s.k) && PoolsGood(s.pools) && PoolsFit(s) && ReportsGood(s.k.c)
  }

  /** Event i is enabled when it comes, and leads to the next state. */
  ghost predicate StepAt(run: seq<Service>, events: seq<Event>, i: nat)
    requires i < |events| < |run|
  {
    Enabled(run[i], events[i]) && run[i + 1] == Next(run[i], events[i])
  }

  ghost predicate IsPath(run: seq<Service>, events: seq<Event>) {
    |run| == |events| + 1 && forall i: nat :: i < |events| ==> StepAt(run, events, i)
  }

  ghost predicate IsRun(run: seq<Service>, events: seq<Event>) {
    IsPath(run, events) && run[0] == START
  }

  lemma {:induction false} EventInv(s: Service, e: Event)
    requires Inv(s) && Enabled(s, e)
    ensures Inv(Next(s, e))
  {
    EventControl(s, e);
    EventPools(s, e);
    EventFits(s, e);
    EventReports(s, e);
  }

  lemma {:induction false} InvAlongPath(run: seq<Service>, events: seq<Event>, i: nat, j: nat)
    requires IsPath(run, events) && i <= j < |run| && Inv(run[i])
    ensures Inv(run[j])
    decreases j
  {
    if i < j {
      InvAlongPath(run, events, i, j - 1);
      assert StepAt(run, events, j - 1);
      EventInv(run[j - 1], events[j - 1]);
    }
  }

  lemma {:induction false} InvOverRuns(run: seq<Service>, events: seq<Event>, i: nat)
    requires IsRun(run, events) && i < |run|
    ensures Inv(run[i])
  {
    EmptyIsCompact();
    InvAlongPath(run, events, 0, i);
  }

  // ----- what the invariant says of every reachable state

  /**
    In every interleaving, exactly one starter or waiter is in flight when the status is
    active and none otherwise, and it holds the current run id: the stale-run guards of Start,
    finishStartFailure and waitForRun never fire.
   */
  lemma {:induction false} StaleGuardsNeverFire(run: seq<Service>, events: seq<Event>, i: nat)
    requires IsRun(run, events) && i < |run|
    ensures var k := run[i].k;
            && (forall id :: id in k.starters || id in k.waiters ==> id == k.c.runID)
            && |k.starters| + |k.waiters| == if ActiveStatus(k.c.state.status) then 1 else 0
  {
    InvOverRuns(run, events, i);
    InFlightCount(run[i].k);
  }

  lemma {:induction false} InFlightCount(k: Control)
    requires OneInFlight(k)
    ensures |k.starters| + |k.waiters| == if ActiveStatus(k.c.state.status) then 1 else 0
  {
    var id := k.c.runID;
    assert k.starters.Keys == (if id in k.starters then {id} else {});
    assert k.waiters.Keys == (if id in k.waiters then {id} else {});
    assert |k.starters| == |k.starters.Keys| && |k.waiters| == |k.waiters.Keys|;
  }

  /** The fields of the coordinator in every reachable state. */
  lemma {:induction false} CoordinatorOverRuns(run: seq<Service>, events: seq<Event>, i: nat)
    requires IsRun(run, events) && i < |run|
    ensures var k := run[i].k;
            var st := k.c.state;
            && (k.c.cancel.Some? <==> ActiveStatus(st.status))
            && (st.status.Running? ==> k.c.run == Some(k.c.runID) && st.startedAt.Some?)
            && (k.c.run.Some? ==> ActiveStatus(st.status) && k.c.run.value in run[i].pools)
            && (st.stoppedAt.Some? <==> Terminal(st.status))
            && (st.error != [] ==> st.status.Failed?)
            && (ActiveStatus(st.status) ==> (st.status.Stopping? <==> k.c.runID in k.cancelled))
  {
    InvOverRuns(run, events, i);
    var k := run[i].k;
    if k.c.run.Some? {
      assert Held(k, k.c.runID);
    }
  }

  /**
    Two runs never coexist: a pool that has not closed done is the current run's, and the
    status is active.  Workers of any other pool run on a cancelled context.
   */
  lemma {:induction false} OneRunAtATime(run: seq<Service>, events: seq<Event>, i: nat, id: nat)
    requires IsRun(run, events) && i < |run| && id in run[i].pools
    ensures !run[i].pools[id].closer.DoneClosed? ==>
              id == run[i].k.c.runID && ActiveStatus(run[i].k.c.state.status)
    ensures id != run[i].k.c.runID || !ActiveStatus(run[i].k.c.state.status) ==>
              forall w :: w in run[i].pools[id].workers ==> P.ContextCancelled(run[i].pools[id], w)
  {
    InvOverRuns(run, events, i);
    var s := run[i];
    assert PoolFits(s.k, id, s.pools[id]);
    assert P.DrainedAfterFinish(s.pools[id]) by { assert P.Inv(s.pools[id]); }
  }

  /** While a run is held, its configured clients are those of the state's options. */
  lemma {:induction false} ClientsAgreeOverRuns(run: seq<Service>, events: seq<Event>, i: nat)
    requires IsRun(run, events) && i < |run| && run[i].k.c.run.Some?
    ensures var id := run[i].k.c.run.value;
            && id in run[i].pools
            && run[i].pools[id].stats.configuredClients == run[i].k.c.state.options.clients
            && (!run[i].pools[id].finish.StopCancelled? ==>
                  |run[i].pools[id].tracked| == run[i].k.c.state.options.clients)
  {
    InvOverRuns(run, events, i);
    var s := run[i];
    var id := s.k.c.run.value;
    assert Held(s.k, id);
    assert PoolFits(s.k, id, s.pools[id]);
    assert P.FullUntilFinish(s.pools[id]) by { assert P.Inv(s.pools[id]); }
  }

  /** The sample behind the results: the live one of the run held, or the one kept. */
  ghost function Reported(s: Service, now: int): (r: Sample)
    requires s.k.c.run.Some? ==> s.k.c.run.value in s.pools
  {
    if s.k.c.run.Some? then SampleOf(s.pools[s.k.c.run.value].stats, now) else s.k.c.sample
  }

  /** In every reachable state the results add up, and the operation rates add up to the TPS. */
  lemma {:induction false} ResultsConserved(run: seq<Service>, events: seq<Event>, i: nat, now: int)
    requires IsRun(run, events) && i < |run|
    ensures var s := run[i];
            && (s.k.c.run.Some? ==> s.k.c.run.value in s.pools)
            && var stats := ResultsOf(s.k.c, Reported(s, now)).stats;
               && stats.totalOperations == stats.successfulOperations + stats.failedOperations
               && SumOfRates(stats.operationRates) == stats.tps
  {
    InvOverRuns(run, events, i);
    CoordinatorOverRuns(run, events, i);
    var s := run[i];
    if s.k.c.run.Some? {
      SampleOfPoolConserved(s.pools[s.k.c.run.value], now);
    }
    RatesSum(Normalized(s.k.c.state, Reported(s, now)));
  }

  // ----- terminal states stay as they are

  ghost predicate NoStart(events: seq<Event>, i: nat, j: nat)
    requires i <= j <= |events|
  {
    forall n :: i <= n < j ==> !events[n].StartCall?
  }

  lemma {:induction false} TerminalStep(s: Service, e: Event)
    requires ControlInv(s.k) && Terminal(s.k.c.state.status) && Enabled(s, e) && !e.StartCall?
    ensures Next(s, e).k.c == s.k.c
  {
  }

  /** A stopped or failed run, its state and its results stay frozen until the next accepted Start. */
  lemma {:induction false} TerminalFrozen(run: seq<Service>, events: seq<Event>, i: nat, j: nat, live: Sample, later: Sample)
    requires IsRun(run, events) && i <= j < |run|
    requires Terminal(run[i].k.c.state.status) && NoStart(events, i, j)
    ensures run[j].k.c == run[i].k.c
    ensures ResultsOf(run[j].k.c, later) == ResultsOf(run[i].k.c, live)
    decreases j
  {
    assert run[i].k.c.run.None? by { InvOverRuns(run, events, i); }
    if i < j {
      TerminalFrozen(run, events, i, j - 1, live, later);
      InvOverRuns(run, events, j - 1);
      assert StepAt(run, events, j - 1);
      TerminalStep(run[j - 1], events[j - 1]);
    }
  }

  // ----- stopping a run that has been handed over

  ghost predicate StoppingHandedOver(k: Control, id: nat) {
    k.c.runID == id && k.c.state.status.Stopping? && id in k.waiters
  }

  ghost predicate StoppedCleanly(k: Control, id: nat) {
    k.c.runID == id && k.c.state.status.Stopped? && k.c.state.error == []
  }

  lemma {:induction false} StoppingStep(s: Service, e: Event, id: nat)
    requires ControlInv(s.k) && StoppingHandedOver(s.k, id) && Enabled(s, e)
    ensures StoppingHandedOver(Next(s, e).k, id) || StoppedCleanly(Next(s, e).k, id)
  {
  }

  /**
    Once a run that has been handed over is stopping, the only outcome is Stopped with an empty
    error, whatever error the run itself ends with.
   */
  lemma {:induction false} StopOutcome(run: seq<Service>, events: seq<Event>, i: nat, j: nat)
    requires IsRun(run, events) && i <= j < |run| && NoStart(events, i, j)
    requires run[i].k.c.state.status.Stopping? && run[i].k.c.runID in run[i].k.waiters
    ensures var id := run[i].k.c.runID;
            StoppingHandedOver(run[j].k, id) || StoppedCleanly(run[j].k, id)
    decreases j
  {
    var id := run[i].k.c.runID;
    if i < j {
      StopOutcome(run, events, i, j - 1);
      InvOverRuns(run, events, j - 1);
      assert StepAt(run, events, j - 1);
      if StoppingHandedOver(run[j - 1].k, id) {
        StoppingStep(run[j - 1], events[j - 1], id);
      } else {
        TerminalStep(run[j - 1], events[j - 1]);
      }
    }
  }

  // ----- how a run comes out

  /**
    The outcome of a run that ends: Stopped when it was being stopped or its first finish
    brought no error, otherwise Failed with that first error, compacted; the sample kept is the
    pool's, and the start time stays.
   */
  lemma {:induction false} RunOutcome(run: seq<Service>, events: seq<Event>, i: nat)
    requires IsRun(run, events) && i < |events| && events[i].RunEnds?
    ensures var e, before, after := events[i], run[i], run[i + 1].k.c;
            && e.id == before.k.c.runID && e.id in before.pools
            && before.pools[e.id].finish.StopCancelled?
            && var error := before.pools[e.id].finish.error;
               && after.state.status
                  == (if before.k.c.state.status.Stopping? || error.None? then Stopped else Failed)
               && after.state.error == (if after.state.status.Stopped? then [] else Compact(error.value.text))
               && after.state.startedAt == before.k.c.state.startedAt
               && after.state.stoppedAt == Some(e.now)
               && after.sample == SampleOf(before.pools[e.id].stats, e.sampledAt)
  {
    InvOverRuns(run, events, i);
    assert StepAt(run, events, i);
    var e, s := events[i], run[i];
    assert PoolFits(s.k, e.id, s.pools[e.id]);
    assert P.FinishAgrees(s.pools[e.id]) && P.DrainedAfterFinish(s.pools[e.id]) by { assert P.Inv(s.pools[e.id]); }
  }

  /** The outcome of a start that fails: Stopped exactly when it was being stopped and the error is a cancellation. */
  lemma {:induction false} StartOutcome(run: seq<Service>, events: seq<Event>, i: nat)
    requires IsRun(run, events) && i < |events| && events[i].StartFails?
    ensures var e, before, after := events[i], run[i].k, run[i + 1].k.c;
            && e.id == before.c.runID && e.id in before.starters && before.starters[e.id].GotError?
            && var error := before.starters[e.id].error;
               && (after.state.status.Stopped? <==> before.c.state.status.Stopping? && error.canceled)
               && (!after.state.status.Stopped? ==>
                     after.state.status.Failed? && after.state.error == Compact(error.text))
               && after.state.options == before.c.state.options
               && after.sample == ZERO_SAMPLE
  {
    InvOverRuns(run, events, i);
    assert StepAt(run, events, i);
  }

  /** The runner's own guards refuse no valid options, so decoded options are refused only by the database. */
  lemma {:induction false} ValidIsRunnable(o: StartOptions)
    ensures ValidStart(o) ==> RunnerAccepts(o)
  {
  }

  // ----- options over a run

  lemma {:induction false} OptionsStep(s: Service, e: Event)
    requires ControlInv(s.k) && Enabled(s, e) && !e.StartCall?
    ensures Next(s, e).k.c.runID == s.k.c.runID
    ensures SameButAlterable(s.k.c.state.options, Next(s, e).k.c.state.options)
    ensures !e.AlterCall? ==> Next(s, e).k.c.state.options == s.k.c.state.options
  {
  }

  /** During a run, and after it, only clients and target_tps of its options ever change. */
  lemma {:induction false} OptionsOverRun(run: seq<Service>, events: seq<Event>, i: nat, j: nat)
    requires IsRun(run, events) && i <= j < |run| && NoStart(events, i, j)
    ensures run[j].k.c.runID == run[i].k.c.runID
    ensures SameButAlterable(run[i].k.c.state.options, run[j].k.c.state.options)
    decreases j
  {
    if i < j {
      OptionsOverRun(run, events, i, j - 1);
      InvOverRuns(run, events, j - 1);
      assert StepAt(run, events, j - 1);
      OptionsStep(run[j - 1], events[j - 1]);
    }
  }

  lemma {:induction false} ValidOptionsStep(s: Service, e: Event)
    requires ControlInv(s.k) && Enabled(s, e)
    requires s.k.c.state.status.Idle? || ValidStart(s.k.c.state.options)
    requires e.StartCall? ==> ValidStart(e.options)
    ensures Next(s, e).k.c.state.status.Idle? || ValidStart(Next(s, e).k.c.state.options)
  {
    if e.AlterCall? {
      AlterExactly(s.k.c.state.options, e.alter);
    } else if !e.StartCall? {
      OptionsStep(s, e);
    }
  }

  /** If every start carries valid options, as decoded ones are, the options of every non-idle state are valid. */
  lemma {:induction false} ValidOptionsOverRuns(run: seq<Service>, events: seq<Event>, i: nat)
    requires IsRun(run, events) && i < |run|
    requires forall n :: 0 <= n < |events| && events[n].StartCall? ==> ValidStart(events[n].options)
    ensures run[i].k.c.state.status.Idle? || ValidStart(run[i].k.c.state.options)
  {
    if i > 0 {
      ValidOptionsOverRuns(run, events, i - 1);
      InvOverRuns(run, events, i - 1);
      assert StepAt(run, events, i - 1);
      ValidOptionsStep(run[i - 1], events[i - 1]);
    }
  }
}
