/**
  Reachable states of the service, and runs that show what can happen: a stopping run that no
  measure bounds, and a run that is over, its results taken, with a worker still active.
 */
module Reachability {
  import opened Wrappers
  import opened ErrorText
  import opened Options
  import opened Samples
  import opened RunStatistics
  import opened Coordinators
  import opened Lifecycle
  import opened Shutdown
  import opened WorkerLoops
  import P = WorkerPool

  ghost predicate Reachable(s: Service) {
    exists run: seq<Service>, events: seq<Event> :: IsRun(run, events) && run[|events|] == s
  }

  lemma {:induction false} ReachStart()
    ensures Reachable(START)
  {
    assert IsRun([START], []);
  }

  lemma {:induction false} Extended(run: seq<Service>, events: seq<Event>, e: Event)
    requires IsRun(run, events) && Enabled(run[|events|], e)
    ensures IsRun(run + [Next(run[|events|], e)], events + [e])
  {
    var r, es := run + [Next(run[|events|], e)], events + [e];
    forall i: nat | i < |es| ensures StepAt(r, es, i) {
      if i < |events| {
        assert StepAt(run, events, i);
      }
    }
  }

  lemma {:induction false} ReachNext(s: Service, e: Event)
    requires Reachable(s) && Enabled(s, e)
    ensures Reachable(Next(s, e))
  {
    var run: seq<Service>, events: seq<Event> :| IsRun(run, events) && run[|events|] == s;
    Extended(run, events, e);
    var r, es := run + [Next(s, e)], events + [e];
    assert IsRun(r, es) && r[|es|] == Next(s, e);
  }

  function WithPool(s: Service, id: nat, p: P.Pool): (r: Service) {
    s.(pools := s.pools[id := p])
  }

  ghost predicate NoParent(steps: seq<P.Step>) {
    forall i :: 0 <= i < |steps| ==> !steps[i].ParentFires?
  }

  /** Steps that a pool can take, the service can take. */
  lemma {:induction false} ReachPlay(s: Service, id: nat, p: P.Pool, steps: seq<P.Step>, q: P.Pool)
    requires Reachable(WithPool(s, id, p)) && Play(p, steps) == Some(q) && NoParent(steps)
    ensures Reachable(WithPool(s, id, q))
    decreases |steps|
  {
    if steps != [] {
      var now, e := WithPool(s, id, p), PoolMoves(id, steps[0]);
      ReachNext(now, e);
      var r := P.Next(p, steps[0]);
      assert s.pools[id := p][id := r] == s.pools[id := r];
      assert Next(now, e) == WithPool(s, id, r);
      ReachPlay(s, id, r, steps[1..], q);
    }
  }

  // ----- a run that has been handed over

  function Control1(status: Status, options: StartOptions, waiter: Waiter, cancelled: set<nat>): (k: Control) {
    Control(Coord(State(status, options, Some(0), None, []), ZERO_SAMPLE, Some(1), Some(1), 1),
            map[], map[1 := waiter], cancelled)
  }

  /** Start, the runner's hand-over and the commit: the first run is running. */
  lemma {:induction false} RunningReached(o: StartOptions)
    requires RunnerAccepts(o)
    ensures Reachable(Service(Control1(Running, o, Waiting, {}), map[1 := P.NewPool(o, 0)]))
  {
    ReachStart();
    var e1, e2, e3 := StartCall(o), RunnerHandsOver(1, 0), StartCommits(1, 0);
    ReachNext(START, e1);
    var s1 := Next(START, e1);
    assert s1 == Service(Control(BeginStart(INITIAL, o), map[1 := Calling(o)], map[], {}), map[]);
    ReachNext(s1, e2);
    var s2 := Next(s1, e2);
    assert s2 == Service(Control(BeginStart(INITIAL, o), map[1 := GotRun(o)], map[], {}), map[1 := P.NewPool(o, 0)]);
    ReachNext(s2, e3);
    var s3 := Next(s2, e3);
    assert s3.k.starters == map[] && s3.k.waiters == map[1 := Waiting];
    assert s3.k.c == Control1(Running, o, Waiting, {}).c;
  }

  /**
    A reachable stopping run with a worker that goes round: for any options the runner accepts,
    stop the run right after its start.  What it can still do is not bounded.
   */
  lemma {:induction false} StoppingRolls(o: StartOptions) returns (s: Service)
    requires RunnerAccepts(o)
    ensures Reachable(s) && s.k.c.state.status.Stopping? && Rolls(s, 1, 0)
    ensures forall n: nat :: !Bounded(s, 1, n)
  {
    RunningReached(o);
    var r := Service(Control1(Running, o, Waiting, {}), map[1 := P.NewPool(o, 0)]);
    ReachNext(r, StopCall);
    s := Next(r, StopCall);
    assert s.k == Control1(Stopping, o, Waiting, {1}) && s.pools == r.pools;
    forall n: nat ensures !Bounded(s, 1, n) {
      RollingIsUnbounded(s, 1, 0, n);
    }
  }
}
