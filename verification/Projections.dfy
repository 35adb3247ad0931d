/**
  What the service does to one pool: every run of the service, seen from the hand-over of a run
  on, is a run of that run's pool, so that what holds over runs of pools holds over runs of the
  service.
 */
module Projections {
  import opened Wrappers
  import opened ErrorText
  import opened Options
  import opened Samples
  import opened RunStatistics
  import opened Coordinators
  import opened Lifecycle
  import P = WorkerPool
  import R = PoolRuns

  /** What the event is to pool `id`. */
  function MoveOf(s: Service, e: Event, id: nat): (move: R.Move) {
    match e
    case PoolMoves(i, step) => if i == id then R.Take(step) else R.Rest
    case AlterCall(a, _) => if s.k.c.run == Some(id) then R.Alter(a) else R.Rest
    case _ => R.Rest
  }

  /** A pool once there stays, and each event is a move of it. */
  lemma {:induction false} EventMoves(s: Service, e: Event, id: nat)
    requires ControlInv(s.k) && PoolsFit(s) && Enabled(s, e) && id in s.pools
    ensures id in Next(s, e).pools && R.Moves(s.pools[id], MoveOf(s, e, id), Next(s, e).pools[id])
  {
    if e.RunnerHandsOver? {
      assert !Held(s.k, e.id);
    }
  }

  ghost predicate NotBefore(run: seq<Service>, h: nat, id: nat)
    requires h < |run|
  {
    forall t :: 0 <= t < h ==> id !in run[t].pools
  }

  lemma {:induction false} MovesOneMore(run: seq<Service>, events: seq<Event>, j: nat, id: nat)
    requires IsRun(run, events) && j < |events| && id in run[j].pools
    ensures id in run[j + 1].pools
    ensures R.Moves(run[j].pools[id], MoveOf(run[j], events[j], id), run[j + 1].pools[id])
  {
    assert StepAt(run, events, j);
    InvOverRuns(run, events, j);
    EventMoves(run[j], events[j], id);
  }

  lemma {:induction false} AbsentBefore(run: seq<Service>, events: seq<Event>, j: nat, id: nat)
    requires IsRun(run, events) && j < |run| && id !in run[j].pools
    ensures NotBefore(run, j, id)
  {
    if j > 0 {
      if id in run[j - 1].pools {
        MovesOneMore(run, events, j - 1, id);
      }
      AbsentBefore(run, events, j - 1, id);
    }
  }

  lemma {:induction false} StaysThere(run: seq<Service>, events: seq<Event>, i: nat, j: nat, id: nat)
    requires IsRun(run, events) && i <= j < |run| && id in run[i].pools
    ensures id in run[j].pools
  {
    if id !in run[j].pools {
      AbsentBefore(run, events, j, id);
    }
  }

  /** The state in which the run was handed over. */
  lemma {:induction false} FirstWithPool(run: seq<Service>, j: nat, id: nat) returns (h: nat)
    requires j < |run| && id in run[j].pools
    ensures h <= j && id in run[h].pools && NotBefore(run, h, id)
  {
    h := 0;
    while id !in run[h].pools
      invariant h <= j && NotBefore(run, h, id)
      decreases j - h
    {
      h := h + 1;
    }
  }

  lemma {:induction false} NewThere(run: seq<Service>, events: seq<Event>, h: nat, id: nat)
    requires IsRun(run, events) && h < |run| && id in run[h].pools && NotBefore(run, h, id)
    ensures R.IsNew(run[h].pools[id])
  {
    if h > 0 {
      assert StepAt(run, events, h - 1);
    }
  }

  function PoolsOf(run: seq<Service>, h: nat, j: nat, id: nat): (pools: seq<P.Pool>)
    requires h <= j < |run| && forall t :: h <= t <= j ==> id in run[t].pools
  {
    seq(j - h + 1, t requires 0 <= t < j - h + 1 => run[h + t].pools[id])
  }

  function MovesOf(run: seq<Service>, events: seq<Event>, h: nat, j: nat, id: nat): (moves: seq<R.Move>)
    requires h <= j < |run| == |events| + 1
  {
    seq(j - h, t requires 0 <= t < j - h => MoveOf(run[h + t], events[h + t], id))
  }

  ghost predicate PresentFrom(run: seq<Service>, h: nat, j: nat, id: nat) {
    h <= j < |run| && forall t :: h <= t <= j ==> id in run[t].pools
  }

  lemma {:induction false} ProjectsAt(run: seq<Service>, events: seq<Event>, h: nat, j: nat, id: nat, t: nat)
    requires IsRun(run, events) && PresentFrom(run, h, j, id) && t < j - h
    ensures R.Moves(PoolsOf(run, h, j, id)[t], MovesOf(run, events, h, j, id)[t], PoolsOf(run, h, j, id)[t + 1])
  {
    MovesOneMore(run, events, h + t, id);
  }

  /** Every run of the service is, from the hand-over of run `id` on, a run of its pool. */
  lemma {:induction false} RunProjects(run: seq<Service>, events: seq<Event>, h: nat, j: nat, id: nat)
    requires IsRun(run, events) && PresentFrom(run, h, j, id) && R.IsNew(run[h].pools[id])
    ensures R.IsRun(PoolsOf(run, h, j, id), MovesOf(run, events, h, j, id))
  {
    var pools, moves := PoolsOf(run, h, j, id), MovesOf(run, events, h, j, id);
    forall t: nat | t < |moves| ensures R.Moves(pools[t], moves[t], pools[t + 1]) {
      ProjectsAt(run, events, h, j, id, t);
    }
  }

  lemma {:induction false} HandedOver(run: seq<Service>, events: seq<Event>, j: nat, id: nat) returns (h: nat)
    requires IsRun(run, events) && j < |run| && id in run[j].pools
    ensures PresentFrom(run, h, j, id) && NotBefore(run, h, id)
  {
    h := FirstWithPool(run, j, id);
    forall t: nat | h <= t <= j ensures id in run[t].pools {
      StaysThere(run, events, h, t, id);
    }
  }

  lemma {:induction false} Projected(run: seq<Service>, events: seq<Event>, j: nat, id: nat) returns (h: nat)
    requires IsRun(run, events) && j < |run| && id in run[j].pools
    ensures PresentFrom(run, h, j, id) && NotBefore(run, h, id)
    ensures R.IsRun(PoolsOf(run, h, j, id), MovesOf(run, events, h, j, id))
  {
    h := HandedOver(run, events, j, id);
    NewThere(run, events, h, id);
    RunProjects(run, events, h, j, id);
  }

  /** Both states of a pair are on the projected run. */
  lemma {:induction false} PairProjects(run: seq<Service>, events: seq<Event>, i: nat, j: nat, id: nat)
    returns (pools: seq<P.Pool>, moves: seq<R.Move>, a: nat, b: nat)
    requires IsRun(run, events) && i <= j < |run| && id in run[i].pools
    ensures id in run[j].pools && R.IsRun(pools, moves) && a <= b < |pools|
    ensures pools[a] == run[i].pools[id] && pools[b] == run[j].pools[id]
  {
    StaysThere(run, events, i, j, id);
    var h := Projected(run, events, j, id);
    assert h <= i;
    pools, moves, a, b := PoolsOf(run, h, j, id), MovesOf(run, events, h, j, id), i - h, j - h;
  }

  /** Once run `id` has finished, its elapsed time never changes again, in whatever the service does. */
  lemma {:induction false} ElapsedFrozen(
    run: seq<Service>, events: seq<Event>, i: nat, j: nat, id: nat, now: int, later: int)
    requires IsRun(run, events) && i <= j < |run| && id in run[i].pools
    requires run[i].pools[id].stats.finishedAt.Some?
    ensures id in run[j].pools
    ensures SampleOf(run[j].pools[id].stats, later).elapsedSeconds
         == SampleOf(run[i].pools[id].stats, now).elapsedSeconds
  {
    var pools, moves, a, b := PairProjects(run, events, i, j, id);
    R.ElapsedFrozen(pools, moves, a, b, now, later);
  }

  // ----- what a clean stop hides

  /** The statistics of run `id` have just been finished with the cancellation of its context. */
  ghost predicate CancelledAt(run: seq<Service>, events: seq<Event>, i: nat, id: nat)
    requires IsRun(run, events) && i < |events|
  {
    && events[i].PoolMoves? && events[i].id == id && events[i].step.FinishStats?
    && id in run[i].pools && run[i].pools[id].finish == P.ErrorSet(Some(CANCELED))
  }

  lemma {:induction false} CancelledShows(run: seq<Service>, events: seq<Event>, i: nat, id: nat)
    requires IsRun(run, events) && i < |events| && CancelledAt(run, events, i, id)
    ensures id in run[i + 1].pools
    ensures run[i + 1].pools[id].stats.finishedAt.Some? && run[i + 1].pools[id].stats.latestError == CANCELED_TEXT
  {
    MovesOneMore(run, events, i, id);
    FinishShows(run[i].pools[id], events[i].step.now, CANCELED);
    CanceledIsCompact();
  }

  lemma {:induction false} FinishShows(p: P.Pool, now: int, error: Failure)
    requires p.finish == P.ErrorSet(Some(error))
    ensures var stats := P.Next(p, P.FinishStats(now)).stats;
            stats.finishedAt.Some? && stats.latestError == Compact(error.text)
  {
  }

  /** The latest error a sample shows after the finish at i: the last one recorded since, or the cancellation. */
  lemma {:induction false} LatestSince(run: seq<Service>, events: seq<Event>, i: nat, j: nat, id: nat)
    requires IsRun(run, events) && i < |events| && CancelledAt(run, events, i, id) && i < j < |run|
    ensures id in run[i + 1].pools && id in run[j].pools
    ensures var before, after := run[i + 1].pools[id].stats, run[j].pools[id].stats;
            && before.log <= after.log
            && after.latestError == R.LatestOf(after.log[|before.log|..], CANCELED_TEXT)
  {
    CancelledShows(run, events, i, id);
    var pools, moves, a, b := PairProjects(run, events, i + 1, j, id);
    R.FollowsOverRun(pools, moves, a, b);
  }

  /** What the results show of a latest error once the run has stopped cleanly. */
  lemma {:induction false} ShownAfterStop(c: Coord, live: Sample)
    requires c.run.None? && c.state.status.Stopped? && c.state.error == [] && IsCompact(c.sample.latestError)
    ensures var shown := ResultsOf(c, live).stats.latestError;
            shown == if c.sample.latestError == CANCELED_TEXT then [] else c.sample.latestError
  {
    NormalizedExactly(c.state, c.sample);
  }

  lemma {:induction false} EndsStopped(run: seq<Service>, events: seq<Event>, j: nat)
    requires IsRun(run, events) && j < |events| && events[j].RunEnds? && run[j].k.c.state.status.Stopping?
    ensures var c := run[j + 1].k.c;
            && c.run.None? && c.state.status.Stopped? && c.state.error == []
            && events[j].id in run[j].pools
            && c.sample.latestError == run[j].pools[events[j].id].stats.latestError
            && IsCompact(c.sample.latestError)
  {
    RunOutcome(run, events, j);
    InvOverRuns(run, events, j + 1);
  }

  predicate LastFailure(log: seq<Completion>, k: nat)
    requires k < |log|
  {
    log[k].error.Some? && forall i :: k < i < |log| ==> log[i].error.None?
  }

  /** No failure, or the last one reads like nothing or like the bare cancellation. */
  ghost predicate Quiet(log: seq<Completion>) {
    forall k: nat :: k < |log| && LastFailure(log, k) ==>
      Compact(log[k].error.value) == [] || Compact(log[k].error.value) == CANCELED_TEXT
  }

  lemma {:induction false} QuietExactly(log: seq<Completion>, initial: Text)
    requires initial == CANCELED_TEXT
    ensures Quiet(log) <==> R.LatestOf(log, initial) == [] || R.LatestOf(log, initial) == CANCELED_TEXT
  {
    if log != [] {
      var n := |log| - 1;
      if log[n].error.Some? {
        assert LastFailure(log, n);
      } else {
        QuietExactly(log[..n], initial);
        forall k: nat | k < n ensures LastFailure(log, k) <==> LastFailure(log[..n], k) {
        }
        assert !LastFailure(log, n);
      }
    }
  }

  lemma {:induction false} ShowsNothing(c: Coord, live: Sample, log: seq<Completion>)
    requires c.run.None? && c.state.status.Stopped? && c.state.error == [] && IsCompact(c.sample.latestError)
    requires c.sample.latestError == R.LatestOf(log, CANCELED_TEXT)
    ensures ResultsOf(c, live).stats.latestError == [] <==> Quiet(log)
  {
    ShownAfterStop(c, live);
    QuietExactly(log, CANCELED_TEXT);
  }

  lemma {:induction false} HidesFrom(
    run: seq<Service>, events: seq<Event>, i: nat, j: nat, id: nat, live: Sample)
    requires IsRun(run, events) && i < j < |events| && CancelledAt(run, events, i, id)
    requires events[j].RunEnds? && events[j].id == id && run[j].k.c.state.status.Stopping?
    ensures id in run[i + 1].pools && id in run[j].pools
    ensures run[i + 1].pools[id].stats.log <= run[j].pools[id].stats.log
    ensures var since := run[j].pools[id].stats.log[|run[i + 1].pools[id].stats.log|..];
            ResultsOf(run[j + 1].k.c, live).stats.latestError == [] <==> Quiet(since)
  {
    LatestSince(run, events, i, j, id);
    EndsStopped(run, events, j);
    ShowsNothing(run[j + 1].k.c, live, run[j].pools[id].stats.log[|run[i + 1].pools[id].stats.log|..]);
  }

  /** The parent watcher fires, and is the first to finish run `id`. */
  ghost predicate WatcherStops(run: seq<Service>, events: seq<Event>, f: nat, id: nat)
    requires IsRun(run, events) && f < |events|
  {
    events[f] == PoolMoves(id, P.ParentFires) && id in run[f].pools && run[f].pools[id].finish.NotFinished?
  }

  lemma {:induction false} WatcherSetsError(run: seq<Service>, events: seq<Event>, f: nat, id: nat)
    requires IsRun(run, events) && f < |events| && WatcherStops(run, events, f, id)
    ensures id in run[f + 1].pools && run[f + 1].pools[id].finish == P.ErrorSet(Some(CANCELED))
  {
    MovesOneMore(run, events, f, id);
    ParentSets(run[f].pools[id]);
  }

  lemma {:induction false} ParentSets(p: P.Pool)
    requires p.finish.NotFinished? && P.Enabled(p, P.ParentFires, true)
    ensures P.Next(p, P.ParentFires).finish == P.ErrorSet(Some(CANCELED))
  {
  }

  lemma {:induction false} ErrorSetLeft(p: P.Pool, move: R.Move, q: P.Pool)
    requires R.Moves(p, move, q) && p.finish.ErrorSet?
    ensures q.finish == p.finish || (move.Take? && move.step.FinishStats?)
  {
    if move.Alter? {
      P.AlteredFrame(p, move.options, q);
    }
  }

  lemma {:induction false} ErrorSetOrFinished(run: seq<Service>, events: seq<Event>, i: nat, id: nat)
    requires IsRun(run, events) && i < |events| && id in run[i].pools
    requires run[i].pools[id].finish == P.ErrorSet(Some(CANCELED))
    ensures id in run[i + 1].pools
    ensures run[i + 1].pools[id].finish == P.ErrorSet(Some(CANCELED)) || CancelledAt(run, events, i, id)
  {
    MovesOneMore(run, events, i, id);
    ErrorSetLeft(run[i].pools[id], MoveOf(run[i], events[i], id), run[i + 1].pools[id]);
  }

  /** The finish that the watcher began reaches the statistics before the run can end. */
  lemma {:induction false} StatsFinishedBetween(run: seq<Service>, events: seq<Event>, f: nat, j: nat, id: nat)
    returns (i: nat)
    requires IsRun(run, events) && f < j < |events| && WatcherStops(run, events, f, id)
    requires id in run[j].pools && run[j].pools[id].finish.StopCancelled?
    ensures f < i < j && CancelledAt(run, events, i, id)
  {
    WatcherSetsError(run, events, f, id);
    i := f + 1;
    while true
      invariant f < i < j && id in run[i].pools && run[i].pools[id].finish == P.ErrorSet(Some(CANCELED))
      decreases j - i
    {
      ErrorSetOrFinished(run, events, i, id);
      if CancelledAt(run, events, i, id) {
        return;
      }
      i := i + 1;
    }
  }

  /**
    After a stop that the parent watcher carried out, the results show no error exactly when no
    failure was recorded after the statistics were finished, but for failures that read like
    nothing or like a cancellation.  Errors from before are overwritten by the cancellation,
    which is then hidden.
   */
  lemma {:induction false} StopHidesEarlierErrors(
    run: seq<Service>, events: seq<Event>, f: nat, j: nat, id: nat, live: Sample)
    returns (i: nat)
    requires IsRun(run, events) && f < j < |events| && WatcherStops(run, events, f, id)
    requires events[j].RunEnds? && events[j].id == id && run[j].k.c.state.status.Stopping?
    ensures f < i < j && events[i].PoolMoves? && events[i].id == id && events[i].step.FinishStats?
    ensures id in run[i + 1].pools && id in run[j].pools
    ensures run[i + 1].pools[id].stats.log <= run[j].pools[id].stats.log
    ensures var since := run[j].pools[id].stats.log[|run[i + 1].pools[id].stats.log|..];
            ResultsOf(run[j + 1].k.c, live).stats.latestError == [] <==> Quiet(since)
  {
    RunOutcome(run, events, j);
    i := StatsFinishedBetween(run, events, f, j, id);
    HidesFrom(run, events, i, j, id, live);
  }
}
