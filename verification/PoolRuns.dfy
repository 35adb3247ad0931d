/**
  Whole runs of one worker pool: any interleaving of the steps of its goroutines with alters.
 */
module PoolRuns {
  import opened Wrappers
  import opened ErrorText
  import opened Options
  import opened RunStatistics
  import opened WorkerPool

  /** Nothing, a step of a goroutine, or an alter. */
  datatype Move = Rest | Take(step: Step) | Alter(options: AlterOptions)

  ghost predicate Moves(p: Pool, move: Move, q: Pool) {
    match move
    case Rest => q == p
    case Take(step) => Enabled(p, step, true) && q == Next(p, step)
    case Alter(a) => ValidateAlter(a).None? && Altered(p, a, q)
  }

  ghost predicate IsNew(p: Pool) {
    exists options: StartOptions, now ::
      && options.clients >= 1 && (options.targetTPS.Some? ==> options.targetTPS.value >= 1)
      && p == NewPool(options, now)
  }

  ghost predicate IsRun(run: seq<Pool>, moves: seq<Move>) {
    && |run| == |moves| + 1 && IsNew(run[0])
    && forall i {:trigger moves[i]} :: 0 <= i < |moves| ==> Moves(run[i], moves[i], run[i + 1])
  }

  lemma {:induction false} MovesInv(p: Pool, move: Move, q: Pool)
    requires Inv(p) && Moves(p, move, q)
    ensures Inv(q)
  {
    match move
    case Rest =>
    case Take(step) => StepInv(p, step);
    case Alter(a) => AlteredInv(p, a, q);
  }

  /** The invariant holds in every state of every interleaving of resizes, worker steps and finishes. */
  lemma {:induction false} InvOverRuns(run: seq<Pool>, moves: seq<Move>, i: nat)
    requires IsRun(run, moves) && i < |run|
    ensures Inv(run[i])
  {
    if i == 0 {
      var options: StartOptions, now :|
        && options.clients >= 1 && (options.targetTPS.Some? ==> options.targetTPS.value >= 1)
        && run[0] == NewPool(options, now);
      NewPoolInv(options, now);
    } else {
      InvOverRuns(run, moves, i - 1);
      MovesInv(run[i - 1], moves[i - 1], run[i]);
    }
  }

  // ----- the first finish

  /** finish has begun, with this error. */
  ghost predicate FinishedWith(p: Pool, error: Option<Failure>) {
    !p.finish.NotFinished? && p.finish.error == error && p.finalErr == error
  }

  lemma {:induction false} FinishFixedStep(p: Pool, s: Step, error: Option<Failure>)
    requires FinishedWith(p, error) && Enabled(p, s, true)
    ensures FinishedWith(Next(p, s), error)
  {
  }

  lemma {:induction false} FinishFixed(p: Pool, move: Move, q: Pool, error: Option<Failure>)
    requires FinishedWith(p, error) && Moves(p, move, q)
    ensures FinishedWith(q, error)
  {
    match move
    case Rest =>
    case Take(step) => FinishFixedStep(p, step, error);
    case Alter(a) => AlteredFrame(p, a, q);
  }

  /** The error of the first finish is final: no later finish changes it. */
  lemma {:induction false} FirstFinishWins(run: seq<Pool>, moves: seq<Move>, i: nat, j: nat)
    requires IsRun(run, moves) && i <= j < |run| && !run[i].finish.NotFinished?
    ensures FinishedWith(run[j], run[i].finish.error)
    decreases j
  {
    if i < j {
      FirstFinishWins(run, moves, i, j - 1);
      FinishFixed(run[j - 1], moves[j - 1], run[j], run[i].finish.error);
    } else {
      assert FinishAgrees(run[i]) by { InvOverRuns(run, moves, i); }
    }
  }

  /**
    done closes only after a finish, and every worker live then was started by a resize that
    came after the wait group had drained; such workers start on a cancelled context.
   */
  lemma {:induction false} DoneAfterFinish(run: seq<Pool>, moves: seq<Move>, i: nat)
    requires IsRun(run, moves) && i < |run| && run[i].closer.DoneClosed?
    ensures run[i].finish.StopCancelled?
    ensures forall id :: id in run[i].workers ==> run[i].closer.at <= id && ContextCancelled(run[i], id)
  {
    InvOverRuns(run, moves, i);
  }

  // ----- which errors end a run

  /** The failure is a counted one, or its worker's context is cancelled: neither leads to finish. */
  predicate Harmless(p: Pool, id: nat, o: Outcome) {
    o.error.None? || o.counted || ContextCancelled(p, id)
  }

  /** The move brings a failure that is not harmless, on a context that is not cancelled. */
  predicate Fatal(p: Pool, move: Move) {
    && move.Take?
    && match move.step
       case PaceFails(id, _) => !ContextCancelled(p, id)
       case RunOnceReturns(id, o) => !Harmless(p, id, o)
       case _ => false
  }

  function FatalError(move: Move): (error: Failure)
    requires move.Take? && (move.step.PaceFails? || (move.step.RunOnceReturns? && move.step.outcome.error.Some?))
  {
    if move.step.PaceFails? then move.step.error else move.step.outcome.error.value
  }

  /** Some fatal move among the first n brought the error. */
  ghost predicate Brought(run: seq<Pool>, moves: seq<Move>, n: nat, error: Failure)
    requires n <= |moves| <= |run|
  {
    exists k :: 0 <= k < n && Fatal(run[k], moves[k]) && FatalError(moves[k]) == error
  }

  /** A failure that the worker still carries towards finish. */
  function Carried(p: Pool, id: nat): (error: Option<Failure>)
    requires id in p.workers
  {
    match p.workers[id]
    case Finishing(e) => Some(e)
    case Completed(o) => if Harmless(p, id, o) then None else o.error
    case Recording(o) => if Harmless(p, id, o) then None else o.error
    case Recorded(o) => if Harmless(p, id, o) then None else o.error
    case _ => None
  }

  /** What a worker carries after a move it carried before, or the move is fatal and brought it. */
  lemma {:induction false} CarriedStep(p: Pool, step: Step, id: nat)
    requires Enabled(p, step, true) && id in Next(p, step).workers && Carried(Next(p, step), id).Some?
    ensures id in p.workers
    ensures (Carried(p, id) == Carried(Next(p, step), id))
         || (Fatal(p, Take(step)) && Carried(Next(p, step), id) == Some(FatalError(Take(step))))
  {
  }

  lemma {:induction false} CarriedExtends(p: Pool, q: Pool, id: nat)
    requires Extends(p, q) && id in q.workers && Carried(q, id).Some?
    ensures id in p.workers && Carried(p, id) == Carried(q, id)
  {
  }

  lemma {:induction false} BroughtBefore(run: seq<Pool>, moves: seq<Move>, n: nat, error: Failure)
    requires n + 1 <= |moves| <= |run|
    requires Brought(run, moves, n, error) || (Fatal(run[n], moves[n]) && FatalError(moves[n]) == error)
    ensures Brought(run, moves, n + 1, error)
  {
    if Brought(run, moves, n, error) {
      var k :| 0 <= k < n && Fatal(run[k], moves[k]) && FatalError(moves[k]) == error;
      assert 0 <= k < n + 1;
    }
  }

  /** Every failure carried towards finish was brought by a fatal move. */
  lemma {:induction false} CarriedIsBrought(run: seq<Pool>, moves: seq<Move>, j: nat, id: nat)
    requires IsRun(run, moves) && j < |run| && id in run[j].workers && Carried(run[j], id).Some?
    ensures Brought(run, moves, j, Carried(run[j], id).value)
  {
    if j > 0 {
      var p, move, q := run[j - 1], moves[j - 1], run[j];
      match move {
        case Rest =>
        case Take(step) => CarriedStep(p, step, id);
        case Alter(a) =>
          AlteredExtends(p, a, q);
          CarriedExtends(p, q, id);
      }
      if Carried(p, id) == Carried(q, id) {
        CarriedIsBrought(run, moves, j - 1, id);
      }
      BroughtBefore(run, moves, j - 1, Carried(q, id).value);
    }
  }

  // ----- what the first finish is given

  /** The step begins the finish, and gives it this error. */
  ghost predicate BeginsWith(p: Pool, move: Move, error: Option<Failure>) {
    || (move == Take(ParentFires) && error == Some(CANCELED))
    || (move == Take(DurationFires) && error == None)
    || (move.Take? && move.step.WorkerFinishes? && move.step.id in p.workers
        && p.workers[move.step.id].Finishing? && error == Some(p.workers[move.step.id].error))
  }

  lemma {:induction false} MoveBegins(p: Pool, move: Move, q: Pool)
    requires Moves(p, move, q) && p.finish.NotFinished?
    ensures !q.finish.NotFinished? <==> move in {Take(ParentFires), Take(DurationFires)} || (move.Take? && move.step.WorkerFinishes?)
    ensures !q.finish.NotFinished? ==> q.finalErr == q.finish.error && BeginsWith(p, move, q.finish.error)
  {
    match move
    case Rest =>
    case Take(step) =>
    case Alter(a) => AlteredFrame(p, a, q);
  }

  /** A run that has finished was finished by one move, which gave it its error. */
  lemma {:induction false} FinishBegan(run: seq<Pool>, moves: seq<Move>, j: nat) returns (k: nat)
    requires IsRun(run, moves) && j < |run| && !run[j].finish.NotFinished?
    ensures k < j && run[k].finish.NotFinished? && BeginsWith(run[k], moves[k], run[j].finish.error)
  {
    assert run[0].finish.NotFinished?;
    k := 0;
    while run[k + 1].finish.NotFinished?
      invariant k < j && run[k].finish.NotFinished?
      decreases j - k
    {
      k := k + 1;
    }
    MoveBegins(run[k], moves[k], run[k + 1]);
    FirstFinishWins(run, moves, k + 1, j);
  }

  /**
    The first of the parent watcher, the duration watcher and a worker to call finish decides how
    the run ends, for good: with the cancellation, with no error, or with the worker's error.
   */
  lemma {:induction false} FirstCallerDecides(run: seq<Pool>, moves: seq<Move>, k: nat, j: nat)
    requires IsRun(run, moves) && k < j < |run| && run[k].finish.NotFinished?
    requires moves[k] in {Take(ParentFires), Take(DurationFires)} || (moves[k].Take? && moves[k].step.WorkerFinishes?)
    ensures !run[j].finish.NotFinished? && run[j].finalErr == run[j].finish.error
    ensures BeginsWith(run[k], moves[k], run[j].finish.error)
    ensures run[j].finish.error == None <==> moves[k] == Take(DurationFires)
    ensures moves[k] == Take(ParentFires) ==> run[j].finish.error == Some(CANCELED)
  {
    MoveBegins(run[k], moves[k], run[k + 1]);
    FirstFinishWins(run, moves, k + 1, j);
  }

  /** What the first finish may be given. */
  ghost predicate Sourced(run: seq<Pool>, moves: seq<Move>, n: nat, error: Option<Failure>)
    requires n <= |moves| <= |run|
  {
    error == None || error == Some(CANCELED) || Brought(run, moves, n, error.value)
  }

  lemma {:induction false} BeginsStep(p: Pool, step: Step)
    requires Enabled(p, step, true) && p.finish.NotFinished? && !Next(p, step).finish.NotFinished?
    ensures var error := Next(p, step).finish.error;
            || error == None || error == Some(CANCELED)
            || (step.WorkerFinishes? && step.id in p.workers && Carried(p, step.id) == error)
  {
  }

  /**
    Where the error of a run comes from: the run ends with no error (its duration), with the
    cancellation (it was stopped), or with the error of a fatal move, a failure that came on a
    live context and was not counted.
   */
  lemma {:induction false} FinishIsSourced(run: seq<Pool>, moves: seq<Move>, j: nat)
    requires IsRun(run, moves) && j < |run| && !run[j].finish.NotFinished?
    ensures Sourced(run, moves, j, run[j].finish.error)
  {
    if j > 0 {
      var p, move, q := run[j - 1], moves[j - 1], run[j];
      if p.finish.NotFinished? {
        if move.Alter? {
          AlteredFrame(p, move.options, q);
        } else {
          BeginsStep(p, move.step);
          if move.step.WorkerFinishes? && Carried(p, move.step.id) == q.finish.error {
            CarriedIsBrought(run, moves, j - 1, move.step.id);
            BroughtBefore(run, moves, j - 1, q.finish.error.value);
          }
        }
      } else {
        FinishIsSourced(run, moves, j - 1);
        FirstFinishWins(run, moves, j - 1, j);
        if q.finish.error.Some? && q.finish.error != Some(CANCELED) {
          BroughtBefore(run, moves, j - 1, q.finish.error.value);
        }
      }
    }
  }

  /**
    Counted failures never end a run, and neither do failures on a cancelled context, however
    the run is altered: without a fatal move no worker carries a failure towards finish, and the
    run ends only by its duration or by being stopped.
   */
  lemma {:induction false} CountedErrorsNeverEndRun(run: seq<Pool>, moves: seq<Move>, j: nat)
    requires IsRun(run, moves) && j < |run|
    requires forall k :: 0 <= k < j ==> !Fatal(run[k], moves[k])
    ensures forall id :: id in run[j].workers ==> Carried(run[j], id).None?
    ensures !run[j].finish.NotFinished? ==> run[j].finish.error == None || run[j].finish.error == Some(CANCELED)
  {
    forall id | id in run[j].workers ensures Carried(run[j], id).None? {
      if Carried(run[j], id).Some? {
        CarriedIsBrought(run, moves, j, id);
      }
    }
    if !run[j].finish.NotFinished? {
      FinishIsSourced(run, moves, j);
    }
  }

  /** A worker that will not operate again: it carries a failure for good, or is on its way out. */
  ghost predicate OnItsWayOut(p: Pool, id: nat) {
    id < p.nextID && (id in p.workers ==>
      match p.workers[id]
      case Pacing => false
      case Operating(_) => false
      case Completed(o) => o.error.Some? && !o.counted
      case Recording(o) => o.error.Some? && !o.counted
      case Recorded(o) => o.error.Some? && !o.counted
      case _ => true)
  }

  lemma {:induction false} WayOutStep(p: Pool, step: Step, id: nat)
    requires OnItsWayOut(p, id) && Enabled(p, step, true)
    ensures OnItsWayOut(Next(p, step), id)
  {
  }

  lemma {:induction false} WayOutExtends(p: Pool, q: Pool, id: nat)
    requires OnItsWayOut(p, id) && Extends(p, q)
    ensures OnItsWayOut(q, id)
  {
  }

  /**
    A worker that met a fatal failure never operates again, and it does not leave before the run
    has finished or a resize has cancelled it.
   */
  lemma {:induction false} FatalEndsWorker(run: seq<Pool>, moves: seq<Move>, k: nat, j: nat)
    requires IsRun(run, moves) && k < j < |run| && Fatal(run[k], moves[k])
    ensures var id := moves[k].step.id;
            && OnItsWayOut(run[j], id)
            && (id !in run[j].workers || run[j].workers[id].Exiting? || run[j].workers[id].Departed? ==>
                  ContextCancelled(run[j], id))
    decreases j
  {
    var id := moves[k].step.id;
    if j == k + 1 {
      assert IdsAgree(run[k]) by { InvOverRuns(run, moves, k); }
    } else {
      FatalEndsWorker(run, moves, k, j - 1);
      var p, move, q := run[j - 1], moves[j - 1], run[j];
      match move {
        case Rest =>
        case Take(step) =>
          WayOutStep(p, step, id);
          LeftCancelledStep(p, step, id);
        case Alter(a) =>
          AlteredExtends(p, a, q);
          WayOutExtends(p, q, id);
          LeftCancelledExtends(p, q, id);
      }
    }
  }

  ghost predicate LeftCancelled(p: Pool, id: nat) {
    id !in p.workers || p.workers[id].Exiting? || p.workers[id].Departed? ==> ContextCancelled(p, id)
  }

  lemma {:induction false} LeftCancelledStep(p: Pool, step: Step, id: nat)
    requires LeftCancelled(p, id) && Enabled(p, step, true)
    ensures LeftCancelled(Next(p, step), id)
  {
  }

  lemma {:induction false} LeftCancelledExtends(p: Pool, q: Pool, id: nat)
    requires LeftCancelled(p, id) && id < p.nextID && Extends(p, q)
    ensures LeftCancelled(q, id)
  {
  }

  // ----- the statistics after the finish

  /** The last error of the log, compacted; `initial` if it has none. */
  function LatestOf(log: seq<Completion>, initial: Text): (t: Text) {
    if log == [] then initial
    else
      var last := log[|log| - 1];
      if last.error.Some? then Compact(last.error.value) else LatestOf(log[..|log| - 1], initial)
  }

  /** After finish: the end time stays, and the log grows by operations that alone set the latest error. */
  ghost predicate Follows(s: Statistics, t: Statistics) {
    && t.finishedAt == s.finishedAt && t.measurementStartedAt == s.measurementStartedAt
    && s.log <= t.log
    && t.latestError == LatestOf(t.log[|s.log|..], s.latestError)
  }

  lemma {:induction false} FollowsRecord(s: Statistics, t: Statistics, c: Completion)
    requires Follows(s, t)
    ensures Follows(s, Record(t, c))
  {
    var more := t.log[|s.log|..];
    assert Record(t, c).log[|s.log|..] == more + [c];
    assert (more + [c])[..|more|] == more;
  }

  /** A move after finish records one operation, or leaves log, latest error and times alone. */
  ghost predicate RecordsAtMost(s: Statistics, t: Statistics) {
    || (exists c :: t == Record(s, c))
    || t == s.(configuredClients := t.configuredClients, activeClients := t.activeClients)
  }

  lemma {:induction false} StepRecordsAtMost(p: Pool, step: Step)
    requires FinishAgrees(p) && p.stats.finishedAt.Some? && Enabled(p, step, true)
    ensures RecordsAtMost(p.stats, Next(p, step).stats)
  {
    if step.RecordOutcome? {
      assert Next(p, step).stats == Record(p.stats, CompletionOf(p.workers[step.id].outcome));
    }
  }

  lemma {:induction false} MoveFollows(s: Statistics, p: Pool, move: Move, q: Pool)
    requires Follows(s, p.stats) && s.finishedAt.Some? && FinishAgrees(p) && Moves(p, move, q)
    ensures Follows(s, q.stats)
  {
    match move {
      case Rest =>
      case Take(step) => StepRecordsAtMost(p, step);
      case Alter(a) => AlteredFrame(p, a, q);
    }
    if c :| q.stats == Record(p.stats, c) {
      FollowsRecord(s, p.stats, c);
    }
  }

  /** From the finish of the statistics on, only operations recorded later change the latest error. */
  lemma {:induction false} FollowsOverRun(run: seq<Pool>, moves: seq<Move>, i: nat, j: nat)
    requires IsRun(run, moves) && i <= j < |run| && run[i].stats.finishedAt.Some?
    ensures Follows(run[i].stats, run[j].stats)
    decreases j
  {
    if i < j {
      FollowsOverRun(run, moves, i, j - 1);
      assert FinishAgrees(run[j - 1]) by { InvOverRuns(run, moves, j - 1); }
      MoveFollows(run[i].stats, run[j - 1], moves[j - 1], run[j]);
    }
  }

  /** Once the run has finished its elapsed time never changes, whatever is recorded or altered later. */
  lemma {:induction false} ElapsedFrozen(run: seq<Pool>, moves: seq<Move>, i: nat, j: nat, now: int, later: int)
    requires IsRun(run, moves) && i <= j < |run| && run[i].stats.finishedAt.Some?
    ensures SampleOf(run[j].stats, later).elapsedSeconds == SampleOf(run[i].stats, now).elapsedSeconds
  {
    FollowsOverRun(run, moves, i, j);
  }
}
