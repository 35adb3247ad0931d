/**
  Stopping a run ends.  A stopping run passes through stages: the runner returns, Start commits,
  and finish cancels the stop context.  Each stage has one event that is enabled as long as the
  stage lasts and ends it.

  How many events the run itself can still make is bounded exactly when its pool is winding
  down: no worker is left that could start another round.  From then on every event of the run
  lowers a weight, some event is always enabled, and the only way out is Stopped.  Before that
  no measure whatsoever falls at every event.
 */
module Shutdown {
  import opened Wrappers
  import opened ErrorText
  import opened Options
  import opened Samples
  import opened RunStatistics
  import opened Coordinators
  import opened Lifecycle
  import P = WorkerPool

  // ----- winding down

  /** The worker is on a live context and carries nothing that takes it to finish. */
  predicate CanGoRound(p: P.Pool, id: nat) {
    && id in p.workers && !P.ContextCancelled(p, id)
    && match p.workers[id]
       case Pacing => true
       case Operating(_) => true
       case Completed(o) => o.error.None? || o.counted
       case Recording(o) => o.error.None? || o.counted
       case Recorded(o) => o.error.None? || o.counted
       case _ => false
  }

  /**
    No worker can go round: the stop context is cancelled, or every worker on a live context is
    calling finish or carries an uncounted failure.
   */
  ghost predicate WindsDown(p: P.Pool) {
    forall id :: id in p.workers ==> !CanGoRound(p, id)
  }

  function FinishRank(f: P.Finish): (r: nat) {
    match f
    case NotFinished => 3
    case ErrorSet(_) => 2
    case StatsFinished(_) => 1
    case StopCancelled(_) => 0
  }

  /** How many steps a worker that cannot go round can still make. */
  function PhaseWeight(phase: P.Phase): (w: nat) {
    match phase
    case Operating(intact) => if intact then 12 else 7
    case Completed(o) => if o.error.None? then 11 else 6
    case Recording(o) => if o.error.None? then 10 else 5
    case Recorded(o) => if o.error.None? then 9 else 4
    case Pacing => 8
    case Finishing(_) => 3
    case Exiting => 2
    case Departed => 1
  }

  function WorkersWeight(workers: map<nat, P.Phase>, n: nat): (w: nat) {
    if n == 0 then 0
    else WorkersWeight(workers, n - 1) + if n - 1 in workers then PhaseWeight(workers[n - 1]) else 0
  }

  function CloserWeight(closer: P.Closer): (w: nat) {
    match closer
    case Awaiting => 3
    case Drained(_) => 2
    case PaceClosed(_) => 1
    case DoneClosed(_) => 0
  }

  function PoolWeight(p: P.Pool): (w: nat) {
    WorkersWeight(p.workers, p.nextID) + CloserWeight(p.closer) + FinishRank(p.finish)
    + (if p.parentWatch then 1 else 0) + (if p.durationWatch then 1 else 0)
  }

  lemma {:induction false} MovedWeight(workers: map<nat, P.Phase>, id: nat, phase: P.Phase, n: nat)
    requires id in workers
    ensures WorkersWeight(workers[id := phase], n)
         == WorkersWeight(workers, n) + if id < n then PhaseWeight(phase) - PhaseWeight(workers[id]) else 0
  {
    if n > 0 {
      MovedWeight(workers, id, phase, n - 1);
    }
  }

  lemma {:induction false} RemovedWeight(workers: map<nat, P.Phase>, id: nat, n: nat)
    requires id in workers
    ensures WorkersWeight(workers - {id}, n)
         == WorkersWeight(workers, n) - if id < n then PhaseWeight(workers[id]) else 0
  {
    if n > 0 {
      RemovedWeight(workers, id, n - 1);
    }
  }

  /** The worker steps move one worker to one phase and leave the rest of the pool's weight alone. */
  lemma {:induction false} WorkerMoveWeight(p: P.Pool, id: nat, phase: P.Phase)
    requires id in p.workers && id < p.nextID && PhaseWeight(phase) < PhaseWeight(p.workers[id])
    ensures PoolWeight(P.Moved(p, id, phase)) < PoolWeight(p)
  {
    MovedWeight(p.workers, id, phase, p.nextID);
  }

  predicate IsWorkerStep(s: P.Step) {
    || s.PaceReturns? || s.PaceFails? || s.RunOnceReturns? || s.CheckContext? || s.RecordOutcome?
    || s.Decide? || s.FinishReturns? || s.WorkerStops?
  }

  lemma {:induction false} WorkerStepWeight(p: P.Pool, s: P.Step)
    requires P.IdsAgree(p) && WindsDown(p) && IsWorkerStep(s) && P.Enabled(p, s, true)
    ensures PoolWeight(P.Next(p, s)) < PoolWeight(p)
  {
    var q := P.Next(p, s);
    var phase := q.workers[s.id];
    WorkerMoveWeight(p, s.id, phase);
    assert PoolWeight(q) == PoolWeight(P.Moved(p, s.id, phase));
  }

  /** While winding down, every step of the pool lowers its weight. */
  lemma {:induction false} PoolStepWeight(p: P.Pool, s: P.Step)
    requires P.IdsAgree(p) && WindsDown(p) && P.Enabled(p, s, true)
    ensures PoolWeight(P.Next(p, s)) < PoolWeight(p)
  {
    if IsWorkerStep(s) {
      WorkerStepWeight(p, s);
    } else if s.WaitGroupDone? {
      RemovedWeight(p.workers, s.id, p.nextID);
    }
  }

  /** And it goes on winding down. */
  lemma {:induction false} WindsDownStays(p: P.Pool, s: P.Step)
    requires WindsDown(p) && P.Enabled(p, s, true)
    ensures WindsDown(P.Next(p, s))
  {
    forall id | id in P.Next(p, s).workers ensures !CanGoRound(P.Next(p, s), id) {
      assert !CanGoRound(p, id);
    }
  }

  /** After finish, a pool that has not closed done, or still has workers, can step. */
  lemma {:induction false} PoolCanStep(p: P.Pool) returns (s: P.Step)
    requires p.finish.StopCancelled? && (p.workers != map[] || !p.closer.DoneClosed?)
    ensures P.Enabled(p, s, false)
  {
    if p.workers != map[] {
      var id :| id in p.workers;
      match p.workers[id] {
        case Pacing => s := P.PaceReturns(id);
        case Operating(_) => s := P.RunOnceReturns(id, P.Outcome(0, 0, 0, Some(CANCELED), false));
        case Completed(_) => s := P.CheckContext(id);
        case Recording(_) => s := P.RecordOutcome(id);
        case Recorded(_) => s := P.Decide(id);
        case Finishing(_) => s := P.FinishReturns(id);
        case Exiting => s := P.WorkerStops(id);
        case Departed => s := P.WaitGroupDone(id);
      }
    } else {
      match p.closer {
        case Awaiting => s := P.WaitGroupDrains;
        case Drained(_) => s := P.PaceCloses;
        case PaceClosed(_) => s := P.DoneCloses;
      }
    }
  }

  // ----- the stages of a stopping run

  /** How far the finish of the current run is; as far as can be from done when there is no pool yet. */
  function Rank(s: Service): (r: nat) {
    if s.k.c.runID in s.pools then FinishRank(s.pools[s.k.c.runID].finish) else 3
  }

  function Stage(s: Service): (stage: nat) {
    var id := s.k.c.runID;
    if id in s.k.starters then
      match s.k.starters[id]
      case Calling(_) => 8
      case GotRun(_) => 4 + Rank(s)
      case GotError(_, _) => 4
    else Rank(s)
  }

  /** The event that ends the stage; none is needed in the last one. */
  function StageEvent(s: Service): (e: Event) {
    var id := s.k.c.runID;
    if id in s.k.starters then
      match s.k.starters[id]
      case Calling(_) => RunnerFails(id, CANCELED)
      case GotRun(_) => StartCommits(id, 0)
      case GotError(_, _) => StartFails(id, 0)
    else
      PoolMoves(id, if Rank(s) == 3 then P.ParentFires else if Rank(s) == 2 then P.FinishStats(0) else P.FinishCancels)
  }

  ghost predicate StoppingWell(s: Service) {
    ControlInv(s.k) && PoolsFit(s) && s.k.c.state.status.Stopping?
  }

  lemma {:induction false} InFlightOf(s: Service)
    requires StoppingWell(s)
    ensures var id := s.k.c.runID;
            && (id in s.k.starters <==> id !in s.k.waiters)
            && (id in s.k.waiters ==> id in s.pools)
            && (id in s.k.starters && s.k.starters[id].Calling? ==> id !in s.pools)
            && id in s.k.cancelled
  {
  }

  /** Finishing is one event away at each rank. */
  lemma {:induction false} FinishAdvances(p: P.Pool, rank: nat)
    requires P.FinishAgrees(p) && rank == FinishRank(p.finish) && rank > 0
    ensures var step := if rank == 3 then P.ParentFires else if rank == 2 then P.FinishStats(0) else P.FinishCancels;
            P.Enabled(p, step, true) && FinishRank(P.Next(p, step).finish) == rank - 1
  {
  }

  /** The stage's event is enabled throughout the stage, and taking it ends the stage or the stopping. */
  lemma {:induction false} StageEnds(s: Service)
    requires StoppingWell(s) && PoolsGood(s.pools) && Stage(s) > 0
    ensures Enabled(s, StageEvent(s))
    ensures var r := Next(s, StageEvent(s));
            r.k.c.state.status.Stopping? ==> Stage(r) < Stage(s)
  {
    var id := s.k.c.runID;
    InFlightOf(s);
    if id in s.k.waiters {
      assert P.FinishAgrees(s.pools[id]) by { assert P.Inv(s.pools[id]); }
      FinishAdvances(s.pools[id], Rank(s));
    }
  }

  lemma {:induction false} FinishOnlyAdvances(p: P.Pool, step: P.Step)
    requires P.Enabled(p, step, true)
    ensures FinishRank(P.Next(p, step).finish) <= FinishRank(p.finish)
  {
  }

  /** No event whatsoever takes a stopping run back to an earlier stage. */
  lemma {:induction false} StageNeverRises(s: Service, e: Event)
    requires StoppingWell(s) && Enabled(s, e) && Next(s, e).k.c.state.status.Stopping?
    ensures Stage(Next(s, e)) <= Stage(s)
  {
    InFlightOf(s);
    if e.PoolMoves? {
      FinishOnlyAdvances(s.pools[e.id], e.step);
    }
  }

  // ----- winding down

  /** Handed over, stopping, and the pool winding down. */
  ghost predicate WindingDown(s: Service, id: nat) {
    && ControlInv(s.k) && PoolsGood(s.pools)
    && StoppingHandedOver(s.k, id)
    && id in s.pools && WindsDown(s.pools[id])
  }

  /** The events of the run itself, as against those of earlier runs' pools and repeated stops. */
  predicate OfRun(e: Event, id: nat) {
    match e
    case WaitReturns(i) => i == id
    case RunEnds(i, _, _) => i == id
    case PoolMoves(i, _) => i == id
    case _ => false
  }

  ghost function Weight(s: Service, id: nat): (w: nat)
    requires id in s.pools && id in s.k.waiters
  {
    PoolWeight(s.pools[id]) + if s.k.waiters[id].Waiting? then 2 else 1
  }

  /** The pool of the run goes on winding down, and loses weight if it moves. */
  lemma {:induction false} WindingPool(s: Service, e: Event, id: nat)
    requires WindingDown(s, id) && Enabled(s, e)
    ensures var r := Next(s, e);
            && id in r.pools && WindsDown(r.pools[id])
            && if e.PoolMoves? && e.id == id then PoolWeight(r.pools[id]) < PoolWeight(s.pools[id])
               else r.pools[id] == s.pools[id]
  {
    assert s.k.starters.Keys == {};
    if e.PoolMoves? && e.id == id {
      assert P.IdsAgree(s.pools[id]) by { assert P.Inv(s.pools[id]); }
      PoolStepWeight(s.pools[id], e.step);
      WindsDownStays(s.pools[id], e.step);
    }
  }

  lemma {:induction false} WindingWaiter(s: Service, e: Event, id: nat)
    requires WindingDown(s, id) && Enabled(s, e) && id in Next(s, e).k.waiters
    ensures if e == WaitReturns(id) then s.k.waiters[id].Waiting? && Next(s, e).k.waiters[id].Woken?
            else Next(s, e).k.waiters[id] == s.k.waiters[id]
    ensures !(e.RunEnds? && e.id == id)
  {
    assert s.k.starters.Keys == {};
  }

  /** Every event of the run lowers its weight or stops it cleanly; other events leave it alone. */
  lemma {:induction false} WindingEvent(s: Service, e: Event, id: nat)
    requires WindingDown(s, id) && Enabled(s, e)
    ensures var r := Next(s, e);
            || StoppedCleanly(r.k, id)
            || (WindingDown(r, id)
                && if OfRun(e, id) then Weight(r, id) < Weight(s, id) else Weight(r, id) == Weight(s, id))
  {
    StoppingStep(s, e, id);
    EventControl(s, e);
    EventPools(s, e);
    WindingPool(s, e, id);
    if StoppingHandedOver(Next(s, e).k, id) {
      WindingWaiter(s, e, id);
    }
  }

  /** While a handed-over run is stopping some event of it is always enabled: it cannot get stuck. */
  lemma {:induction false} NeverStuck(s: Service, id: nat) returns (e: Event)
    requires ControlInv(s.k) && PoolsGood(s.pools) && StoppingHandedOver(s.k, id) && id in s.pools
    ensures OfRun(e, id) && Enabled(s, e)
  {
    var p := s.pools[id];
    if s.k.waiters[id].Woken? {
      e := RunEnds(id, 0, 0);
    } else if p.closer.DoneClosed? {
      e := WaitReturns(id);
    } else if p.finish.StopCancelled? {
      var step := PoolCanStep(p);
      e := PoolMoves(id, step);
    } else {
      assert P.FinishAgrees(p) by { assert P.Inv(p); }
      FinishAdvances(p, FinishRank(p.finish));
      e := PoolMoves(id, if FinishRank(p.finish) == 3 then P.ParentFires
                         else if FinishRank(p.finish) == 2 then P.FinishStats(0) else P.FinishCancels);
    }
  }

  /** The events of the run among events i .. j - 1. */
  function EventsOfRun(events: seq<Event>, i: nat, j: nat, id: nat): (n: nat)
    requires i <= j <= |events|
    decreases j
  {
    if i == j then 0 else EventsOfRun(events, i, j - 1, id) + if OfRun(events[j - 1], id) then 1 else 0
  }

  /** Stopped, or winding down with at most `budget` events of the run to go. */
  ghost predicate Within(s: Service, id: nat, budget: int) {
    StoppedCleanly(s.k, id) || (WindingDown(s, id) && Weight(s, id) <= budget)
  }

  lemma {:induction false} WithinStep(s: Service, e: Event, id: nat, budget: int)
    requires ControlInv(s.k) && Within(s, id, budget) && Enabled(s, e) && !e.StartCall?
    ensures Within(Next(s, e), id, if OfRun(e, id) then budget - 1 else budget)
  {
    if StoppedCleanly(s.k, id) {
      TerminalStep(s, e);
    } else {
      WindingEvent(s, e, id);
    }
  }

  lemma {:induction false} WithinOneStep(run: seq<Service>, events: seq<Event>, n: nat, id: nat, budget: int)
    requires IsPath(run, events) && n < |events| && !events[n].StartCall? && ControlInv(run[n].k)
    requires Within(run[n], id, budget)
    ensures Within(run[n + 1], id, budget - if OfRun(events[n], id) then 1 else 0)
  {
    assert StepAt(run, events, n);
    WithinStep(run[n], events[n], id, budget);
  }

  lemma {:induction false} WithinOverPath(
    run: seq<Service>, events: seq<Event>, i: nat, j: nat, id: nat, budget: int)
    requires IsPath(run, events) && i <= j < |run| && NoStart(events, i, j) && Inv(run[i])
    requires Within(run[i], id, budget)
    ensures Within(run[j], id, budget - EventsOfRun(events, i, j, id))
    decreases j
  {
    if i < j {
      WithinOverPath(run, events, i, j - 1, id, budget);
      assert ControlInv(run[j - 1].k) by { InvAlongPath(run, events, i, j - 1); }
      WithinOneStep(run, events, j - 1, id, budget - EventsOfRun(events, i, j - 1, id));
    }
  }

  /**
    Shutdown terminates: once winding down, whatever else the service does, the run itself
    makes at most Weight more events before it is Stopped with an empty error, and stays so
    until the next accepted Start.
   */
  lemma {:induction false} ShutdownTerminates(run: seq<Service>, events: seq<Event>, i: nat, j: nat)
    requires IsRun(run, events) && i <= j < |run| && NoStart(events, i, j)
    requires WindingDown(run[i], run[i].k.c.runID)
    ensures var id := run[i].k.c.runID;
            && Within(run[j], id, Weight(run[i], id) - EventsOfRun(events, i, j, id))
            && (EventsOfRun(events, i, j, id) >= Weight(run[i], id) ==> StoppedCleanly(run[j].k, id))
  {
    var id := run[i].k.c.runID;
    var w := Weight(run[i], id);
    assert Within(run[j], id, w - EventsOfRun(events, i, j, id)) by {
      InvOverRuns(run, events, i);
      WithinOverPath(run, events, i, j, id, w);
    }
  }

  // ----- exactly when the events of a stopping run are bounded

  ghost predicate StopsAlong(run: seq<Service>, id: nat) {
    forall t :: 0 <= t < |run| ==> StoppingHandedOver(run[t].k, id)
  }

  /** However the service goes on from s, the run makes at most n events while it is stopping. */
  ghost predicate Bounded(s: Service, id: nat, n: nat) {
    forall run: seq<Service>, events: seq<Event> ::
      IsPath(run, events) && run[0] == s && StopsAlong(run, id) ==> EventsOfRun(events, 0, |events|, id) <= n
  }

  lemma {:induction false} NoStartAlong(run: seq<Service>, events: seq<Event>, id: nat)
    requires IsPath(run, events) && StopsAlong(run, id)
    ensures NoStart(events, 0, |events|)
  {
    forall t: nat | t < |events| ensures !events[t].StartCall? {
      assert StepAt(run, events, t);
      assert StoppingHandedOver(run[t].k, id);
    }
  }

  lemma {:induction false} WithinPath(run: seq<Service>, events: seq<Event>, id: nat, w: nat)
    requires IsPath(run, events) && StopsAlong(run, id) && Inv(run[0]) && Within(run[0], id, w)
    ensures EventsOfRun(events, 0, |events|, id) <= w
  {
    var n := |events|;
    NoStartAlong(run, events, id);
    WithinOverPath(run, events, 0, n, id, w);
  }

  /** The next step of a worker that goes round: its operations succeed, or fail with a counted error. */
  function RoundStep(p: P.Pool, id: nat): (s: P.Step)
    requires CanGoRound(p, id)
  {
    match p.workers[id]
    case Pacing => P.PaceReturns(id)
    case Operating(intact) => P.RunOnceReturns(id, P.Outcome(0, 0, 0, if intact then None else Some(CANCELED), true))
    case Completed(_) => P.CheckContext(id)
    case Recording(_) => P.RecordOutcome(id)
    case Recorded(_) => P.Decide(id)
  }

  /** A stopping run, handed over, with a worker that can go round. */
  ghost predicate Rolls(s: Service, id: nat, worker: nat) {
    StoppingHandedOver(s.k, id) && id in s.pools && CanGoRound(s.pools[id], worker)
  }

  /** One more step of the worker. */
  ghost predicate RollsTo(s: Service, e: Event, r: Service, id: nat, worker: nat) {
    Enabled(s, e) && r == Next(s, e) && OfRun(e, id) && Rolls(s, id, worker) && Rolls(r, id, worker)
  }

  lemma {:induction false} RollOnce(s: Service, id: nat, worker: nat) returns (e: Event, r: Service)
    requires Rolls(s, id, worker)
    ensures RollsTo(s, e, r, id, worker)
  {
    e := PoolMoves(id, RoundStep(s.pools[id], worker));
    r := Next(s, e);
  }

  ghost predicate AllOfRun(events: seq<Event>, id: nat) {
    forall t :: 0 <= t < |events| ==> OfRun(events[t], id)
  }

  /** A path of events of the run itself, all the while stopping. */
  ghost predicate OwnPath(run: seq<Service>, events: seq<Event>, id: nat, s: Service) {
    IsPath(run, events) && run[0] == s && AllOfRun(events, id) && StopsAlong(run, id)
  }

  lemma {:induction false} RollsAlong(s: Service, id: nat, worker: nat, n: nat)
    returns (run: seq<Service>, events: seq<Event>)
    requires Rolls(s, id, worker)
    ensures |run| == n + 1 && |events| == n && run[0] == s && Rolls(run[n], id, worker) && StopsAlong(run, id)
    ensures forall i {:trigger events[i]} :: 0 <= i < n ==> RollsTo(run[i], events[i], run[i + 1], id, worker)
    decreases n
  {
    if n == 0 {
      run, events := [s], [];
    } else {
      run, events := RollsAlong(s, id, worker, n - 1);
      var e, r := RollOnce(run[n - 1], id, worker);
      run, events := run + [r], events + [e];
    }
  }

  /** A worker that can go round makes paths of any length. */
  lemma {:induction false} RollsForEver(s: Service, id: nat, worker: nat, n: nat)
    returns (run: seq<Service>, events: seq<Event>)
    requires Rolls(s, id, worker)
    ensures OwnPath(run, events, id, s) && |events| == n
  {
    run, events := RollsAlong(s, id, worker, n);
    forall i: nat | i < n ensures StepAt(run, events, i) && OfRun(events[i], id) {
    }
  }

  lemma {:induction false} AllCounted(events: seq<Event>, n: nat, id: nat)
    requires AllOfRun(events, id) && n <= |events|
    ensures EventsOfRun(events, 0, n, id) == n
  {
    if n > 0 {
      AllCounted(events, n - 1, id);
    }
  }

  lemma {:induction false} OwnPathCounts(s: Service, id: nat, run: seq<Service>, events: seq<Event>)
    requires OwnPath(run, events, id, s)
    ensures IsPath(run, events) && run[0] == s && StopsAlong(run, id)
    ensures EventsOfRun(events, 0, |events|, id) == |events|
  {
    AllCounted(events, |events|, id);
  }

  lemma {:induction false} RollingIsUnbounded(s: Service, id: nat, worker: nat, n: nat)
    requires Rolls(s, id, worker)
    ensures !Bounded(s, id, n)
  {
    var run, events := RollsForEver(s, id, worker, n + 1);
    OwnPathCounts(s, id, run, events);
  }

  /**
    The events that a stopping run, once handed over, can still make are bounded exactly when its
    pool winds down: its stop context is cancelled, or every worker on a live context is calling
    finish or carries an uncounted failure.
   */
  lemma {:induction false} BoundedExactly(s: Service, id: nat)
    requires Inv(s) && StoppingHandedOver(s.k, id) && id in s.pools
    ensures (exists n: nat :: Bounded(s, id, n)) <==> WindsDown(s.pools[id])
  {
    if WindsDown(s.pools[id]) {
      forall run: seq<Service>, events: seq<Event> | IsPath(run, events) && run[0] == s && StopsAlong(run, id)
        ensures EventsOfRun(events, 0, |events|, id) <= Weight(s, id)
      {
        WithinPath(run, events, id, Weight(s, id));
      }
      assert Bounded(s, id, Weight(s, id));
    } else {
      var worker :| worker in s.pools[id].workers && CanGoRound(s.pools[id], worker);
      forall n: nat ensures !Bounded(s, id, n) {
        RollingIsUnbounded(s, id, worker, n);
      }
    }
  }

  /** A measure cannot fall more often than its first value allows. */
  lemma {:induction false} SomeStepDoesNotFall(run: seq<Service>, measure: Service -> nat, n: nat) returns (i: nat)
    requires n < |run| && measure(run[0]) < n
    ensures i < n && measure(run[i + 1]) >= measure(run[i])
  {
    i := 0;
    while measure(run[i + 1]) < measure(run[i])
      invariant i < n && measure(run[i]) + i <= measure(run[0])
      decreases n - i
    {
      i := i + 1;
    }
  }

  /**
    No measure of the service falls at every event of a stopping run that is not winding down:
    whatever the measure, the run can come by its own events to one that does not lower it.
   */
  lemma {:induction false} NoMeasureFalls(s: Service, id: nat, worker: nat, measure: Service -> nat)
    returns (run: seq<Service>, events: seq<Event>, i: nat)
    requires Rolls(s, id, worker)
    ensures OwnPath(run, events, id, s) && i < |events| && measure(run[i + 1]) >= measure(run[i])
  {
    run, events := RollsForEver(s, id, worker, measure(s) + 1);
    i := SomeStepDoesNotFall(run, measure, measure(s) + 1);
  }

  lemma {:induction false} StepStartsNoWorker(p: P.Pool, step: P.Step)
    requires P.Enabled(p, step, true)
    ensures P.Next(p, step).nextID == p.nextID && P.Next(p, step).workers.Keys <= p.workers.Keys
  {
  }

  /** Once stopping, alters are refused: no event starts a worker in any pool there is. */
  lemma {:induction false} StoppingStartsNoWorker(s: Service, e: Event, id: nat)
    requires StoppingWell(s) && Enabled(s, e) && id in s.pools
    ensures !e.AlterCall? && !e.StartCall?
    ensures var r := Next(s, e);
            id in r.pools && r.pools[id].nextID == s.pools[id].nextID
            && r.pools[id].workers.Keys <= s.pools[id].workers.Keys
  {
    InFlightOf(s);
    if e.PoolMoves? {
      StepStartsNoWorker(s.pools[e.id], e.step);
    }
  }
}
