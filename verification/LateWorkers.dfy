/**
  Workers that a run gets after its wait group has drained.  The coordinator may still be running
  then, and an alter it accepts resizes a pool that nobody waits for any more.
 */
module LateWorkers {
  import opened Wrappers
  import opened ErrorText
  import opened Options
  import opened Samples
  import opened RunStatistics
  import opened Coordinators
  import opened Lifecycle
  import opened Shutdown
  import opened WorkerLoops
  import opened Reachability
  import opened Projections
  import P = WorkerPool
  import R = PoolRuns

  /** The event is an alter of run `id` that asks for more workers than the run tracks. */
  predicate AsksForMore(s: Service, e: Event, id: nat)
    requires id in s.pools
  {
    && e.AlterCall? && s.k.c.run == Some(id)
    && e.alter.clients.Some? && e.alter.clients.value > |s.pools[id].tracked|
  }

  lemma {:induction false} AlterStarts(p: P.Pool, a: AlterOptions, q: P.Pool)
    requires ValidateAlter(a).None? && P.Altered(p, a, q)
    ensures q.nextID >= p.nextID
    ensures q.nextID > p.nextID <==> a.clients.Some? && a.clients.value > |p.tracked|
  {
  }

  /** Exactly the alters that ask for more start workers; ids only grow. */
  lemma {:induction false} StartsWorkersExactly(s: Service, e: Event, id: nat)
    requires Inv(s) && Enabled(s, e) && id in s.pools
    ensures id in Next(s, e).pools && Next(s, e).pools[id].nextID >= s.pools[id].nextID
    ensures Next(s, e).pools[id].nextID > s.pools[id].nextID <==> AsksForMore(s, e, id)
  {
    EventMoves(s, e, id);
    var p, q := s.pools[id], Next(s, e).pools[id];
    match MoveOf(s, e, id) {
      case Rest =>
      case Take(step) => StepStartsNoWorker(p, step);
      case Alter(a) => AlterStarts(p, a, q);
    }
  }

  /** The event is an alter of run `id` that gives a number of clients. */
  predicate Resizes(s: Service, e: Event, id: nat) {
    e.AlterCall? && s.k.c.run == Some(id) && e.alter.clients.Some?
  }

  /** The wait group has drained and no worker has been started since. */
  ghost predicate Empty(p: P.Pool) {
    !p.closer.Awaiting? && p.nextID == p.closer.at
  }

  lemma {:induction false} EmptyHasNone(p: P.Pool)
    requires P.Inv(p) && Empty(p)
    ensures p.workers == map[] && p.tracked == {}
  {
    assert p.workers.Keys == {};
    assert P.Active(p) == {};
  }

  lemma {:induction false} CloserStays(p: P.Pool, move: R.Move, q: P.Pool)
    requires R.Moves(p, move, q) && !p.closer.Awaiting?
    ensures !q.closer.Awaiting? && q.closer.at == p.closer.at
  {
    match move
    case Rest =>
    case Take(step) =>
    case Alter(a) => P.AlteredFrame(p, a, q);
  }

  /** A drained pool stays empty exactly until it is resized. */
  lemma {:induction false} StaysEmptyExactly(s: Service, e: Event, id: nat)
    requires Inv(s) && Enabled(s, e) && id in s.pools && !s.pools[id].closer.Awaiting?
    ensures id in Next(s, e).pools && !Next(s, e).pools[id].closer.Awaiting?
    ensures Next(s, e).pools[id].closer.at == s.pools[id].closer.at
    ensures Empty(Next(s, e).pools[id]) <==> Empty(s.pools[id]) && !Resizes(s, e, id)
  {
    StartsWorkersExactly(s, e, id);
    EventMoves(s, e, id);
    var p := s.pools[id];
    CloserStays(p, MoveOf(s, e, id), Next(s, e).pools[id]);
    assert P.Inv(p);
    if Empty(p) {
      EmptyHasNone(p);
    } else {
      assert P.DrainedAfterFinish(p);
    }
  }

  // ----- over whole runs

  /** The wait group of run `id` drains. */
  predicate Drains(e: Event, id: nat) {
    e == PoolMoves(id, P.WaitGroupDrains)
  }

  ghost predicate NoResize(run: seq<Service>, events: seq<Event>, i: nat, j: nat, id: nat)
    requires j <= |events| <= |run|
  {
    forall n: nat :: i <= n < j ==> !Resizes(run[n], events[n], id)
  }

  lemma {:induction false} EmptyOneMore(run: seq<Service>, events: seq<Event>, j: nat, id: nat)
    requires IsRun(run, events) && j < |events| && id in run[j].pools && !run[j].pools[id].closer.Awaiting?
    ensures id in run[j + 1].pools && !run[j + 1].pools[id].closer.Awaiting?
    ensures run[j + 1].pools[id].closer.at == run[j].pools[id].closer.at
    ensures Empty(run[j + 1].pools[id]) <==> Empty(run[j].pools[id]) && !Resizes(run[j], events[j], id)
  {
    assert StepAt(run, events, j);
    InvOverRuns(run, events, j);
    StaysEmptyExactly(run[j], events[j], id);
  }

  lemma {:induction false} EmptyWhileNoResize(run: seq<Service>, events: seq<Event>, d: nat, j: nat, id: nat)
    requires IsRun(run, events) && d < j < |run| && Drains(events[d], id)
    ensures id in run[d].pools && id in run[j].pools && !run[j].pools[id].closer.Awaiting?
    ensures run[j].pools[id].closer.at == run[d].pools[id].nextID
    ensures Empty(run[j].pools[id]) <==> NoResize(run, events, d + 1, j, id)
    decreases j
  {
    if j == d + 1 {
      assert StepAt(run, events, d);
    } else {
      EmptyWhileNoResize(run, events, d, j - 1, id);
      EmptyOneMore(run, events, j - 1, id);
    }
  }

  /**
    Exactly when a drained run gets workers: when, and only when, an alter of that run gives a
    number of clients.  Until then it has none, and those it gets are on a cancelled context.
   */
  lemma {:induction false} LateWorkersExactly(run: seq<Service>, events: seq<Event>, d: nat, j: nat, id: nat)
    requires IsRun(run, events) && d < j < |run| && Drains(events[d], id)
    ensures id in run[d].pools && id in run[j].pools
    ensures NoResize(run, events, d + 1, j, id) <==> run[j].pools[id].nextID == run[d].pools[id].nextID
    ensures NoResize(run, events, d + 1, j, id) ==> run[j].pools[id].workers == map[]
    ensures forall w :: w in run[j].pools[id].workers ==>
              P.ContextCancelled(run[j].pools[id], w) && run[d].pools[id].nextID <= w
  {
    EmptyWhileNoResize(run, events, d, j, id);
    var p := run[j].pools[id];
    assert P.Inv(p) by { InvOverRuns(run, events, j); }
    assert P.DrainedAfterFinish(p);
    if Empty(p) {
      EmptyHasNone(p);
    }
  }

  lemma {:induction false} DrainStep(p: P.Pool, move: R.Move, q: P.Pool)
    requires R.Moves(p, move, q) && p.closer.Awaiting? && !q.closer.Awaiting?
    ensures move == R.Take(P.WaitGroupDrains)
  {
    if move.Alter? {
      P.AlteredFrame(p, move.options, q);
    }
  }

  lemma {:induction false} NewAwaits(p: P.Pool)
    requires R.IsNew(p)
    ensures p.closer.Awaiting?
  {
  }

  /** A pool that has drained drained at some event. */
  lemma {:induction false} DrainedOnce(run: seq<Service>, events: seq<Event>, j: nat, id: nat) returns (d: nat)
    requires IsRun(run, events) && j < |run| && id in run[j].pools && !run[j].pools[id].closer.Awaiting?
    ensures d < j && Drains(events[d], id)
  {
    var h := HandedOver(run, events, j, id);
    NewThere(run, events, h, id);
    NewAwaits(run[h].pools[id]);
    d := h;
    while run[d + 1].pools[id].closer.Awaiting?
      invariant h <= d < j && run[d].pools[id].closer.Awaiting?
      decreases j - d
    {
      d := d + 1;
    }
    MovesOneMore(run, events, d, id);
    DrainStep(run[d].pools[id], MoveOf(run[d], events[d], id), run[d + 1].pools[id]);
  }

  /**
    The active clients in the sample kept at the end of a run: the late workers that have not yet
    left.  They are zero if no alter resized the run after its wait group had drained.
   */
  lemma {:induction false} KeptActiveClients(run: seq<Service>, events: seq<Event>, j: nat) returns (d: nat)
    requires IsRun(run, events) && j < |events| && events[j].RunEnds?
    ensures d < j && Drains(events[d], events[j].id) && events[j].id in run[j].pools
    ensures var p, kept := run[j].pools[events[j].id], run[j + 1].k.c.sample.activeClients;
            && kept == |P.Active(p)|
            && (kept == 0 <==> forall w :: w in p.workers ==> p.workers[w].Departed?)
            && (NoResize(run, events, d + 1, j, events[j].id) ==> kept == 0)
  {
    var id := events[j].id;
    RunOutcome(run, events, j);
    EndedPool(run, events, j);
    d := DrainedOnce(run, events, j, id);
    LateWorkersExactly(run, events, d, j, id);
    NoneActive(run[j].pools[id]);
  }

  lemma {:induction false} NoneActive(p: P.Pool)
    ensures |P.Active(p)| == 0 <==> forall w :: w in p.workers ==> p.workers[w].Departed?
  {
    if |P.Active(p)| == 0 {
      assert forall w :: w in p.workers ==> w !in P.Active(p);
    } else {
      var w :| w in P.Active(p);
    }
  }

  lemma {:induction false} EndedPool(run: seq<Service>, events: seq<Event>, j: nat)
    requires IsRun(run, events) && j < |events| && events[j].RunEnds?
    ensures events[j].id in run[j].pools
    ensures var p := run[j].pools[events[j].id];
            p.closer.DoneClosed? && p.stats.activeClients == |P.Active(p)|
  {
    assert StepAt(run, events, j);
    InvOverRuns(run, events, j);
    var s, id := run[j], events[j].id;
    assert PoolFits(s.k, id, s.pools[id]);
    assert P.CountsAgree(s.pools[id]) by { assert P.Inv(s.pools[id]); }
  }

  // ----- a run that is over with a worker still active

  /** After the duration has fired, with the one worker still pacing. */
  lemma {:induction false} DurationPlays(p: P.Pool)
    requires p.finish.NotFinished? && p.durationWatch
    ensures Play(p, [P.DurationFires, P.FinishStats(0), P.FinishCancels])
         == Some(P.WholeFinish(p, None, 0).(durationWatch := false))
  {
    var a := P.Next(p, P.DurationFires);
    PlayOne(p, P.DurationFires, [P.FinishStats(0), P.FinishCancels]);
    PlayTwo(a, P.FinishStats(0), P.FinishCancels);
    assert [P.DurationFires, P.FinishStats(0), P.FinishCancels] == [P.DurationFires] + [P.FinishStats(0), P.FinishCancels];
  }

  lemma {:induction false} ClosePlays(p: P.Pool)
    requires p.closer.Awaiting? && p.workers == map[]
    ensures Play(p, [P.WaitGroupDrains, P.PaceCloses, P.DoneCloses])
         == Some(p.(closer := P.DoneClosed(p.nextID), ticker := None))
  {
    var a := P.Next(p, P.WaitGroupDrains);
    PlayOne(p, P.WaitGroupDrains, [P.PaceCloses, P.DoneCloses]);
    PlayTwo(a, P.PaceCloses, P.DoneCloses);
    assert [P.WaitGroupDrains, P.PaceCloses, P.DoneCloses] == [P.WaitGroupDrains] + [P.PaceCloses, P.DoneCloses];
  }

  /** A pool with one worker, worker 0, which is pacing. */
  ghost predicate OneWorker(p: P.Pool) {
    p.nextID == 1 && p.workers == map[0 := P.Pacing] && p.tracked == {0} && p.closer.Awaiting?
  }

  lemma {:induction false} NewHasOne(o: StartOptions)
    requires RunnerAccepts(o) && o.clients == 1
    ensures var p := P.NewPool(o, 0);
            OneWorker(p) && p.finish.NotFinished? && p.durationWatch && p.finalErr.None? && p.stats.activeClients == 1
  {
    assert P.NewIDs(0, 1) == {0};
    assert P.NewPool(o, 0).workers == map[0 := P.Pacing];
  }

  function FinishedPool(o: StartOptions): (p: P.Pool)
    requires RunnerAccepts(o)
  {
    P.WholeFinish(P.NewPool(o, 0), None, 0).(durationWatch := false)
  }

  /** The pool after the duration, the exit of its worker and the closing of done. */
  function ClosedPool(o: StartOptions): (p: P.Pool)
    requires RunnerAccepts(o)
  {
    Gone(FinishedPool(o), 0).(closer := P.DoneClosed(1), ticker := None)
  }

  lemma {:induction false} LeavesByPacing(p: P.Pool) returns (steps: seq<P.Step>)
    requires OneWorker(p) && p.finish.StopCancelled?
    ensures Play(p, steps) == Some(Gone(p, 0)) && NoParent(steps)
  {
    var r := Round(Some(CANCELED), P.Outcome(0, 0, 0, None, false), 0);
    PaceFailsPlays(p, 0, r);
    steps := RoundSteps(p, 0, r);
    assert steps == [P.PaceFails(0, CANCELED)] + LeaveSteps(0);
  }

  lemma {:induction false} FinishedReached(o: StartOptions, s: Service)
    requires RunnerAccepts(o) && o.clients == 1
    requires s == Service(Control1(Running, o, Waiting, {}), map[1 := P.NewPool(o, 0)])
    ensures Reachable(WithPool(s, 1, FinishedPool(o)))
    ensures OneWorker(FinishedPool(o))
  {
    var p := P.NewPool(o, 0);
    RunningReached(o);
    NewHasOne(o);
    assert WithPool(s, 1, p) == s;
    DurationPlays(p);
    ReachPlay(s, 1, p, [P.DurationFires, P.FinishStats(0), P.FinishCancels], FinishedPool(o));
  }

  lemma {:induction false} GoneIsEmpty(p: P.Pool)
    requires OneWorker(p)
    ensures Gone(p, 0).workers == map[] && Gone(p, 0).closer.Awaiting? && Gone(p, 0).nextID == 1
  {
  }

  lemma {:induction false} ClosedReached(o: StartOptions)
    requires RunnerAccepts(o) && o.clients == 1
    ensures Reachable(Service(Control1(Running, o, Waiting, {}), map[1 := ClosedPool(o)]))
  {
    var s := Service(Control1(Running, o, Waiting, {}), map[1 := P.NewPool(o, 0)]);
    var p := FinishedPool(o);
    FinishedReached(o, s);
    var steps := LeavesByPacing(p);
    ReachPlay(s, 1, p, steps, Gone(p, 0));
    GoneIsEmpty(p);
    ClosePlays(Gone(p, 0));
    ReachPlay(s, 1, Gone(p, 0), [P.WaitGroupDrains, P.PaceCloses, P.DoneCloses], ClosedPool(o));
    assert WithPool(s, 1, ClosedPool(o)).pools == map[1 := ClosedPool(o)];
  }

  /** What an alter to one client makes of the closed pool. */
  function LatePool(o: StartOptions): (p: P.Pool)
    requires RunnerAccepts(o)
  {
    P.Grow(P.Configure(ClosedPool(o), 1), 1)
  }

  lemma {:induction false} ClosedAltered(o: StartOptions)
    requires RunnerAccepts(o) && o.clients == 1
    ensures var p, q := ClosedPool(o), LatePool(o);
            && p.closer.DoneClosed? && p.finalErr.None?
            && P.Altered(p, AlterOptions(Some(1), None), q)
            && q.workers == map[1 := P.Pacing] && q.stats.activeClients == 1
            && q.closer.DoneClosed? && q.finalErr.None?
  {
    NewHasOne(o);
    var p := ClosedPool(o);
    assert p.workers == map[] && p.tracked == {} && p.nextID == 1;
    assert P.NewIDs(1, 1) == {1};
    assert LatePool(o).workers == map[1 := P.Pacing];
  }

  lemma {:induction false} SameOptions(o: StartOptions)
    requires ValidStart(o) && o.clients == 1
    ensures ApplyAlter(o, AlterOptions(Some(1), None)) == Ok(o)
  {
    AlterExactly(o, AlterOptions(Some(1), None));
  }

  lemma {:induction false} LateAlter(s: Service, o: StartOptions, p: P.Pool, q: P.Pool)
    requires Reachable(s) && s == Service(Control1(Running, o, Waiting, {}), map[1 := p])
    requires ApplyAlter(o, AlterOptions(Some(1), None)) == Ok(o) && P.Altered(p, AlterOptions(Some(1), None), q)
    ensures Reachable(Service(s.k, map[1 := q]))
  {
    var e := AlterCall(AlterOptions(Some(1), None), q);
    ReachNext(s, e);
    assert Next(s, e) == Service(s.k, map[1 := q]);
  }

  lemma {:induction false} LateWait(s: Service, o: StartOptions, q: P.Pool)
    requires Reachable(s) && s == Service(Control1(Running, o, Waiting, {}), map[1 := q])
    requires q.closer.DoneClosed? && q.finalErr.None?
    ensures Reachable(Service(Control1(Running, o, Woken(None), {}), map[1 := q]))
  {
    ReachNext(s, WaitReturns(1));
    assert Next(s, WaitReturns(1)) == Service(Control1(Running, o, Woken(None), {}), map[1 := q]);
  }

  lemma {:induction false} LateEnd(s: Service, o: StartOptions, q: P.Pool) returns (r: Service)
    requires Reachable(s) && s == Service(Control1(Running, o, Woken(None), {}), map[1 := q])
    ensures Reachable(r) && r.k.c.state.status.Stopped? && r.k.c.run.None? && r.pools == map[1 := q]
    ensures r.k.c.sample.activeClients == q.stats.activeClients
  {
    ReachNext(s, RunEnds(1, 0, 0));
    r := Next(s, RunEnds(1, 0, 0));
  }

  /**
    A run that is over with a worker still active: for any valid options with one client, let the
    duration pass and the run close done, alter it before the coordinator notices, and let it end.
    The results then show one active client.
   */
  lemma {:induction false} OverWithWorker(o: StartOptions) returns (s: Service)
    requires ValidStart(o) && o.clients == 1
    ensures Reachable(s) && s.k.c.state.status.Stopped? && s.k.c.run.None?
    ensures 1 in s.pools && s.pools[1].workers == map[1 := P.Pacing]
    ensures s.k.c.sample.activeClients == 1
  {
    var p, q := ClosedPool(o), LatePool(o);
    ClosedReached(o);
    ClosedAltered(o);
    SameOptions(o);
    s := Service(Control1(Running, o, Waiting, {}), map[1 := p]);
    LateAlter(s, o, p, q);
    s := Service(s.k, map[1 := q]);
    LateWait(s, o, q);
    s := Service(Control1(Running, o, Woken(None), {}), map[1 := q]);
    s := LateEnd(s, o, q);
  }
}
