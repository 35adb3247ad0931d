/**
  Every stop comes to an end.  A behaviour is an infinite run of the service; it is fair when no
  actor of a run that stays able to act is put off for ever.  In every fair behaviour a stopping
  run reaches Stopped or Failed, and Stopped with an empty error once it had been handed over.
 */
module Liveness {
  import opened Wrappers
  import opened ErrorText
  import opened Options
  import opened Samples
  import opened Coordinators
  import opened Lifecycle
  import opened Shutdown
  import opened Fairness
  import P = WorkerPool

  /** What a stopping run may be waiting for. */
  datatype Actor =
    | RunnerReturns  // runner.Start, given a cancelled context
    | StartReturns   // the second critical section of Start
    | ParentWatcher  // watchParent
    | Finisher       // the body of finishOnce
    | RunItself      // the workers, awaitCompletion and waitForRun

  predicate OfActor(actor: Actor, e: Event, id: nat) {
    match actor
    case RunnerReturns => (e.RunnerHandsOver? || e.RunnerFails?) && e.id == id
    case StartReturns => (e.StartCommits? || e.StartFails?) && e.id == id
    case ParentWatcher => e == PoolMoves(id, P.ParentFires)
    case Finisher => e.PoolMoves? && e.id == id && (e.step.FinishStats? || e.step.FinishCancels?)
    case RunItself => OfRun(e, id)
  }

  ghost predicate CanAct(s: Service, actor: Actor, id: nat) {
    exists e :: OfActor(actor, e, id) && Enabled(s, e)
  }

  ghost predicate GoesAt(run: nat -> Service, events: nat -> Event, i: nat) {
    Enabled(run(i), events(i)) && run(i + 1) == Lifecycle.Next(run(i), events(i))
  }

  ghost predicate Behaviour(run: nat -> Service, events: nat -> Event) {
    run(0) == START && forall i: nat :: GoesAt(run, events, i)
  }

  /** From n on, the actor cannot act at some time, or acts at some time. */
  ghost predicate Attended(run: nat -> Service, events: nat -> Event, actor: Actor, id: nat, n: nat) {
    exists m: nat :: n <= m && (CanAct(run(m), actor, id) ==> OfActor(actor, events(m), id))
  }

  /** Weak fairness: an actor that can always act acts. */
  ghost predicate Fair(run: nat -> Service, events: nat -> Event) {
    forall actor, id: nat, n: nat :: Attended(run, events, actor, id, n)
  }

  lemma {:induction false} InvAlong(run: nat -> Service, events: nat -> Event, n: nat)
    requires Behaviour(run, events)
    ensures Inv(run(n))
  {
    if n == 0 {
      InvOverRuns([START], [], 0);
    } else {
      InvAlong(run, events, n - 1);
      assert GoesAt(run, events, n - 1);
      EventInv(run(n - 1), events(n - 1));
    }
  }

  // ----- the measure: the stage, and in the last stage the weight

  function ActorOf(stage: nat): (actor: Actor) {
    if stage >= 8 then RunnerReturns
    else if stage >= 4 then StartReturns
    else if stage == 3 then ParentWatcher
    else if stage >= 1 then Finisher
    else RunItself
  }

  /** A well-behaved state in which run `id` is stopping; `handed` says that it has been handed over. */
  ghost predicate Stops(s: Service, id: nat, handed: bool) {
    && Inv(s) && s.k.c.state.status.Stopping? && s.k.c.runID == id
    && (handed ==> id in s.k.waiters)
  }

  /** The run is over; one that had been handed over is Stopped with an empty error. */
  ghost predicate Over(s: Service, id: nat, handed: bool) {
    && s.k.c.runID == id && Terminal(s.k.c.state.status)
    && (handed ==> StoppedCleanly(s.k, id))
  }

  lemma {:induction false} StageZeroIsLast(s: Service, id: nat, handed: bool)
    requires Stops(s, id, handed) && Stage(s) == 0
    ensures WindingDown(s, id) && id in s.pools && id in s.k.waiters
  {
  }

  ghost function Remaining(s: Service): (w: nat) {
    var id := s.k.c.runID;
    if Stage(s) == 0 && id in s.pools && id in s.k.waiters then Weight(s, id) else 0
  }

  /** The measure has not risen from s to r. */
  ghost predicate NotRisen(s: Service, r: Service) {
    Stage(r) < Stage(s) || (Stage(r) == Stage(s) && Remaining(r) <= Remaining(s))
  }

  ghost predicate Fallen(s: Service, r: Service) {
    Stage(r) < Stage(s) || (Stage(r) == Stage(s) && Remaining(r) < Remaining(s))
  }

  lemma {:induction false} StillOrOver(s: Service, e: Event, id: nat, handed: bool)
    requires Stops(s, id, handed) && Enabled(s, e)
    ensures Stops(Lifecycle.Next(s, e), id, handed) || Over(Lifecycle.Next(s, e), id, handed)
  {
    EventInv(s, e);
    if handed {
      StoppingStep(s, e, id);
    }
    LeavesToTerminal(s, e);
  }

  lemma {:induction false} LeavesToTerminal(s: Service, e: Event)
    requires ControlInv(s.k) && s.k.c.state.status.Stopping? && Enabled(s, e)
    ensures var c := Lifecycle.Next(s, e).k.c;
            c.runID == s.k.c.runID && (c.state.status.Stopping? || Terminal(c.state.status))
  {
  }

  /** No event raises the measure of a stopping run. */
  lemma {:induction false} NeverRises(s: Service, e: Event, id: nat)
    requires Stops(s, id, false) && Enabled(s, e) && Lifecycle.Next(s, e).k.c.state.status.Stopping?
    ensures NotRisen(s, Lifecycle.Next(s, e))
  {
    StageNeverRises(s, e);
    if Stage(s) == 0 {
      StageZeroIsLast(s, id, false);
      WindingEvent(s, e, id);
    }
  }

  lemma {:induction false} EventOfActor(s: Service)
    requires StoppingWell(s) && Stage(s) > 0
    ensures OfActor(ActorOf(Stage(s)), StageEvent(s), s.k.c.runID)
  {
  }

  /** The actor of the stage can act throughout it. */
  lemma {:induction false} ActorCanAct(s: Service, id: nat)
    requires Stops(s, id, false)
    ensures CanAct(s, ActorOf(Stage(s)), id)
  {
    if Stage(s) == 0 {
      StageZeroIsLast(s, id, false);
      var e := NeverStuck(s, id);
      assert OfActor(RunItself, e, id);
    } else {
      StageEnds(s);
      EventOfActor(s);
    }
  }

  lemma {:induction false} FinishStepLowers(p: P.Pool, step: P.Step)
    requires P.Enabled(p, step, true)
    requires if p.finish.NotFinished? then step == P.ParentFires else step.FinishStats? || step.FinishCancels?
    ensures FinishRank(P.Next(p, step).finish) < FinishRank(p.finish)
  {
  }

  lemma {:induction false} FinishLowers(s: Service, step: P.Step)
    requires StoppingWell(s) && Stage(s) > 0 && s.k.c.runID in s.k.waiters
    requires Enabled(s, PoolMoves(s.k.c.runID, step)) && OfActor(ActorOf(Stage(s)), PoolMoves(s.k.c.runID, step), s.k.c.runID)
    ensures Stage(Lifecycle.Next(s, PoolMoves(s.k.c.runID, step))) < Stage(s)
  {
    InFlightOf(s);
    FinishStepLowers(s.pools[s.k.c.runID], step);
  }

  lemma {:induction false} StageLowers(s: Service, e: Event, id: nat)
    requires StoppingWell(s) && s.k.c.runID == id && Stage(s) > 0
    requires Enabled(s, e) && OfActor(ActorOf(Stage(s)), e, id)
    requires Lifecycle.Next(s, e).k.c.state.status.Stopping?
    ensures Stage(Lifecycle.Next(s, e)) < Stage(s)
  {
    InFlightOf(s);
    if id in s.k.waiters {
      FinishLowers(s, e.step);
    } else {
      StarterLowers(s, e, id);
    }
  }

  lemma {:induction false} StarterLowers(s: Service, e: Event, id: nat)
    requires StoppingWell(s) && s.k.c.runID == id && id in s.k.starters
    requires Enabled(s, e) && OfActor(ActorOf(Stage(s)), e, id)
    requires Lifecycle.Next(s, e).k.c.state.status.Stopping?
    ensures Stage(Lifecycle.Next(s, e)) < Stage(s)
  {
  }

  /** Every act of the actor of the stage lowers the measure or ends the stopping. */
  lemma {:induction false} ActorLowers(s: Service, e: Event, id: nat)
    requires Stops(s, id, false) && Enabled(s, e) && OfActor(ActorOf(Stage(s)), e, id)
    requires Lifecycle.Next(s, e).k.c.state.status.Stopping?
    ensures Fallen(s, Lifecycle.Next(s, e))
  {
    if Stage(s) == 0 {
      StageZeroIsLast(s, id, false);
      WindingEvent(s, e, id);
      StageNeverRises(s, e);
    } else {
      StageLowers(s, e, id);
    }
  }

  // ----- along a behaviour

  lemma {:induction false} OneStep(run: nat -> Service, events: nat -> Event, n: nat, id: nat, handed: bool)
    requires Behaviour(run, events) && Stops(run(n), id, handed)
    ensures Over(run(n + 1), id, handed) || (Stops(run(n + 1), id, handed) && NotRisen(run(n), run(n + 1)))
    ensures Stops(run(n + 1), id, handed) && OfActor(ActorOf(Stage(run(n))), events(n), id) ==> Fallen(run(n), run(n + 1))
  {
    var s, e := run(n), events(n);
    assert GoesAt(run, events, n);
    StillOrOver(s, e, id, handed);
    if Stops(Lifecycle.Next(s, e), id, handed) {
      NeverRises(s, e, id);
      if OfActor(ActorOf(Stage(s)), e, id) {
        ActorLowers(s, e, id);
      }
    }
  }

  /** The behaviour as the stopping of one run sees it. */
  ghost function Watch(run: nat -> Service, events: nat -> Event, id: nat, handed: bool): (w: Watched) {
    Watched(
      (t: nat) => Stops(run(t), id, handed),
      (t: nat) => Over(run(t), id, handed),
      (t: nat) => Stage(run(t)),
      (t: nat) => Remaining(run(t)),
      (stage: nat, t: nat) => CanAct(run(t), ActorOf(stage), id),
      (stage: nat, t: nat) => OfActor(ActorOf(stage), events(t), id))
  }

  lemma {:induction false} WatchSteps(run: nat -> Service, events: nat -> Event, id: nat, handed: bool, t: nat)
    requires Behaviour(run, events)
    ensures StepsWell(Watch(run, events, id, handed), t)
  {
    if Stops(run(t), id, handed) {
      OneStep(run, events, t, id, handed);
      ActorCanAct(run(t), id);
    }
  }

  lemma {:induction false} WatchAttended(run: nat -> Service, events: nat -> Event, id: nat, handed: bool, stage: nat, t: nat)
    requires Fair(run, events)
    ensures IsAttended(Watch(run, events, id, handed), stage, t)
  {
    assert Attended(run, events, ActorOf(stage), id, t);
    var m: nat :| t <= m && (CanAct(run(m), ActorOf(stage), id) ==> OfActor(ActorOf(stage), events(m), id));
    assert t <= m && (Watch(run, events, id, handed).can(stage, m) ==> Watch(run, events, id, handed).acts(stage, m));
  }

  /**
    Every stop terminates: in every fair behaviour, whenever a run is stopping it is later over,
    with Stopped and an empty error if it had been handed over by then.
   */
  lemma {:induction false} StopTerminates(run: nat -> Service, events: nat -> Event, n: nat, id: nat, handed: bool)
    requires Behaviour(run, events) && Fair(run, events)
    requires run(n).k.c.state.status.Stopping? && run(n).k.c.runID == id && (handed ==> id in run(n).k.waiters)
    ensures exists m: nat :: n <= m && Over(run(m), id, handed)
  {
    InvAlong(run, events, n);
    var w := Watch(run, events, id, handed);
    forall t: nat ensures StepsWell(w, t) { WatchSteps(run, events, id, handed, t); }
    forall stage: nat, t: nat ensures IsAttended(w, stage, t) { WatchAttended(run, events, id, handed, stage, t); }
    assert w.stops(n);
    var m := EventuallyOver(w, n);
    assert Over(run(m), id, handed);
  }

  // ----- a fair behaviour with a stopping run

  function Starting1(o: StartOptions): (k: Control) {
    Control(BeginStart(INITIAL, o), map[1 := Calling(o)], map[], {})
  }

  function Stopping1(o: StartOptions, starter: Starter): (k: Control) {
    var k := Starting1(o);
    Control(k.c.(state := k.c.state.(status := Stopping)), map[1 := starter], map[], {1})
  }

  function Stopped1(o: StartOptions): (k: Control) {
    Control(Coord(State(Stopped, o, None, Some(0), []), ZERO_SAMPLE, None, None, 1), map[], map[], {1})
  }

  /** Started, stopped, the runner returns the cancellation, the start fails, and nothing more happens. */
  function StopExample(o: StartOptions, t: nat): (s: Service) {
    if t == 0 then START
    else if t == 1 then Service(Starting1(o), map[])
    else if t == 2 then Service(Stopping1(o, Calling(o)), map[])
    else if t == 3 then Service(Stopping1(o, GotError(o, CANCELED)), map[])
    else Service(Stopped1(o), map[])
  }

  function StopExampleEvent(o: StartOptions, t: nat): (e: Event) {
    if t == 0 then StartCall(o)
    else if t == 2 then RunnerFails(1, CANCELED)
    else if t == 3 then StartFails(1, 0)
    else StopCall
  }

  lemma {:induction false} StopExampleSteps(o: StartOptions, t: nat)
    ensures Enabled(StopExample(o, t), StopExampleEvent(o, t))
    ensures StopExample(o, t + 1) == Lifecycle.Next(StopExample(o, t), StopExampleEvent(o, t))
  {
    var s, r := Lifecycle.Next(StopExample(o, t), StopExampleEvent(o, t)), StopExample(o, t + 1);
    assert s.k.starters == r.k.starters;
    assert s.k.c == r.k.c;
    assert s.k.cancelled == r.k.cancelled;
  }

  function ExampleRun(o: StartOptions): (run: nat -> Service) { (t: nat) => StopExample(o, t) }

  function ExampleEvents(o: StartOptions): (events: nat -> Event) { (t: nat) => StopExampleEvent(o, t) }

  lemma {:induction false} ExampleGoes(o: StartOptions, i: nat)
    ensures GoesAt(ExampleRun(o), ExampleEvents(o), i)
  {
    StopExampleSteps(o, i);
  }

  lemma {:induction false} ExampleAttended(o: StartOptions, actor: Actor, id: nat, n: nat)
    ensures Attended(ExampleRun(o), ExampleEvents(o), actor, id, n)
  {
    var m: nat := n + 4;
    assert n <= m && !CanAct(ExampleRun(o)(m), actor, id);
  }

  /** Fair behaviours with a stopping run exist, one for all options. */
  lemma {:induction false} FairStopExists(o: StartOptions)
    ensures Behaviour(ExampleRun(o), ExampleEvents(o)) && Fair(ExampleRun(o), ExampleEvents(o))
    ensures ExampleRun(o)(2).k.c.state.status.Stopping?
  {
    var run, events := ExampleRun(o), ExampleEvents(o);
    forall i: nat ensures GoesAt(run, events, i) {
      ExampleGoes(o, i);
    }
    forall actor: Actor, id: nat, n: nat ensures Attended(run, events, actor, id, n) {
      ExampleAttended(o, actor, id, n);
    }
  }
}
