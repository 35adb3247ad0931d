/**
  The worker pool of one run: `activeRun` of internal/benchrunner/runtime.go as a machine whose
  steps are the atomic sections of its goroutines.

  Each worker is a phase machine that follows the body of startWorkerLocked.  A worker is in
  `workers` from wg.Add to wg.Done.  `tracked` is the key set of the code's `workers` map, the
  workers a resize can still cancel.  finish runs its body once, in three steps; later callers
  wait for it.  The goroutine awaitCompletion drains the wait group, closes the pacing gate and
  closes `done`, in three steps.
 */
module WorkerPool {
  import opened Wrappers
  import opened ErrorText
  import opened Options
  import opened RunStatistics

  /** What RunOnce returned; `counted` says the error is a countedOperationError. */
  datatype Outcome = Outcome(kind: int, latency: int, at: int, error: Option<Failure>, counted: bool)

  function TextOf(error: Option<Failure>): (t: Option<Text>) {
    if error.Some? then Some(error.value.text) else None
  }

  function CompletionOf(o: Outcome): (c: Completion) {
    Completion(o.kind, o.latency, o.at, TextOf(o.error))
  }

  /** The log entry of an outcome, field by field. */
  ghost predicate Logs(c: Completion, o: Outcome) {
    && c.kind == o.kind && c.latency == o.latency && c.completedAt == o.at
    && (c.error.Some? <==> o.error.Some?) && (o.error.Some? ==> c.error.value == o.error.value.text)
  }

  ghost predicate LogsAll(log: seq<Completion>, outs: seq<Outcome>) {
    |log| == |outs| && forall k :: 0 <= k < |log| ==> Logs(log[k], outs[k])
  }

  datatype Phase =
    | Pacing                      // in pace.Wait
    | Operating(intact: bool)     // in RunOnce; intact: its context was not cancelled when it began
    | Completed(outcome: Outcome) // RunOnce returned
    | Recording(outcome: Outcome) // past the first context check
    | Recorded(outcome: Outcome)  // past stats.record
    | Finishing(error: Failure)   // calling finish
    | Exiting                     // workerStopped still to come
    | Departed                    // wg.Done still to come

  /** The body of finishOnce: not begun, or how far it has come, with the error it was given. */
  datatype Finish =
    | NotFinished
    | ErrorSet(error: Option<Failure>)
    | StatsFinished(error: Option<Failure>)
    | StopCancelled(error: Option<Failure>)

  /** The progress of awaitCompletion, and the value nextID had when the wait group drained. */
  datatype Closer =
    | Awaiting
    | Drained(at: nat)
    | PaceClosed(at: nat)
    | DoneClosed(at: nat)

  datatype Pool = Pool(
    nextID: nat,
    tracked: set<nat>,
    cancelled: set<nat>,
    workers: map<nat, Phase>,
    finish: Finish,
    finalErr: Option<Failure>,
    closer: Closer,
    parentWatch: bool,
    durationWatch: bool,
    ticker: Option<int>,
    stats: Statistics)

  /** ctx.Err() != nil for the context of the worker. */
  predicate ContextCancelled(p: Pool, id: nat) {
    id in p.cancelled || p.finish.StopCancelled?
  }

  // ----- resizing

  /** time.Second / targetTPS, at least a nanosecond. */
  function Interval(targetTPS: int): (d: int)
    requires targetTPS >= 1
    ensures 1 <= d <= 1_000_000_000
  {
    var d := 1_000_000_000 / targetTPS;
    if d <= 0 then 1 else d
  }

  /** The n ids from `first` on. */
  function NewIDs(first: nat, n: nat): (ids: set<nat>)
    ensures |ids| == n
    ensures forall id :: id in ids <==> first <= id < first + n
  {
    if n == 0 then {} else NewIDs(first, n - 1) + {first + n - 1}
  }

  /**
    The interval is the longest whole number of nanoseconds that fits the target into a second,
    and it does fit exactly when the target is at most one per nanosecond.
   */
  lemma {:induction false} IntervalExact(targetTPS: int)
    requires targetTPS >= 1
    ensures (Interval(targetTPS) + 1) * targetTPS > 1_000_000_000
    ensures Interval(targetTPS) * targetTPS <= 1_000_000_000 <==> targetTPS <= 1_000_000_000
  {
    var d := 1_000_000_000 / targetTPS;
    assert 1_000_000_000 == d * targetTPS + 1_000_000_000 % targetTPS;
    assert (d + 1) * targetTPS == d * targetTPS + targetTPS;
    if targetTPS <= 1_000_000_000 {
      assert d >= 1;
    } else {
      assert d == 0;
    }
  }

  function PacingAll(ids: set<nat>): (w: map<nat, Phase>) {
    map id | id in ids :: Pacing
  }

  /** Starting one worker for each of the ids. */
  function Started(p: Pool, ids: set<nat>): (q: Pool) {
    p.(nextID := p.nextID + |ids|,
       tracked := p.tracked + ids,
       workers := p.workers + PacingAll(ids),
       stats := p.stats.(activeClients := p.stats.activeClients + |ids|))
  }

  /** Starting n workers: startWorkerLocked n times. */
  function Grow(p: Pool, n: nat): (q: Pool) {
    Started(p, NewIDs(p.nextID, n))
  }

  /** Every id kept is smaller than every id dropped. */
  ghost predicate KeepsSmallest(all: set<nat>, kept: set<nat>) {
    kept <= all && forall i, j :: i in kept && j in all && j !in kept ==> i < j
  }

  /** Of two such choices one contains the other. */
  lemma {:induction false} KeptAreNested(all: set<nat>, a: set<nat>, b: set<nat>)
    requires KeepsSmallest(all, a) && KeepsSmallest(all, b)
    ensures a <= b || b <= a
  {
  }

  lemma {:induction false} SubsetOfSameSize(a: set<nat>, b: set<nat>)
    requires a <= b && |a| == |b|
    ensures a == b
  {
    assert b == a + (b - a);
    assert |b| == |a| + |b - a|;
  }

  /** Which ids are kept is determined by how many. */
  lemma {:induction false} KeepsSmallestUnique(all: set<nat>, a: set<nat>, b: set<nat>)
    requires KeepsSmallest(all, a) && KeepsSmallest(all, b) && |a| == |b|
    ensures a == b
  {
    KeptAreNested(all, a, b);
    if a <= b {
      SubsetOfSameSize(a, b);
    } else {
      SubsetOfSameSize(b, a);
    }
  }

  /** Cancelling tracked workers until `target` are left, the largest ids first. */
  ghost predicate Shrunk(p: Pool, target: nat, q: Pool) {
    && KeepsSmallest(p.tracked, q.tracked)
    && |q.tracked| == target
    && q == p.(tracked := q.tracked, cancelled := p.cancelled + (p.tracked - q.tracked))
  }

  function Configure(p: Pool, clients: int): (q: Pool) {
    p.(stats := p.stats.(configuredClients := clients))
  }

  /** The part of resizeWorkers under the lock: grow or shrink to the target. */
  ghost predicate Sized(p: Pool, target: nat, q: Pool) {
    if |p.tracked| <= target then q == Grow(p, target - |p.tracked|) else Shrunk(p, target, q)
  }

  ghost predicate Resized(p: Pool, target: nat, q: Pool) {
    Sized(Configure(p, target), target, q)
  }

  /** realPacingGate.Update with a target. */
  function Repaced(p: Pool, targetTPS: Option<int>): (q: Pool)
    requires targetTPS.Some? ==> targetTPS.value >= 1
  {
    if targetTPS.Some? then p.(ticker := Some(Interval(targetTPS.value))) else p
  }

  /** activeRun.Alter on a request it accepts. */
  ghost predicate Altered(p: Pool, a: AlterOptions, q: Pool)
    requires ValidateAlter(a).None?
  {
    var c := Repaced(p, a.targetTPS);
    if a.clients.Some? then Resized(c, a.clients.value, q) else q == c
  }

  /** A run with no worker yet. */
  function EmptyPool(options: StartOptions, now: int): (p: Pool)
    requires options.targetTPS.Some? ==> options.targetTPS.value >= 1
  {
    Pool(0, {}, {}, map[], NotFinished, None, Awaiting, true, true,
         if options.targetTPS.Some? then Some(Interval(options.targetTPS.value)) else None,
         NewStatistics(now, options.warmupSeconds * 1_000_000_000, options.clients))
  }

  /** newActiveRun. */
  function NewPool(options: StartOptions, now: int): (p: Pool)
    requires options.clients >= 1
    requires options.targetTPS.Some? ==> options.targetTPS.value >= 1
  {
    Grow(EmptyPool(options, now), options.clients)
  }

  // ----- the steps

  datatype Step =
    | PaceReturns(id: nat)
    | PaceFails(id: nat, error: Failure)
    | RunOnceReturns(id: nat, outcome: Outcome)
    | CheckContext(id: nat)
    | RecordOutcome(id: nat)
    | Decide(id: nat)
    | WorkerFinishes(id: nat)
    | FinishReturns(id: nat)
    | ParentFires
    | DurationFires
    | ParentWatchEnds
    | DurationWatchEnds
    | FinishStats(now: int)
    | FinishCancels
    | WorkerStops(id: nat)
    | WaitGroupDone(id: nat)
    | WaitGroupDrains
    | PaceCloses
    | DoneCloses

  /**
    Two assumptions about the workload: RunOnce returns one of the nine kinds, and a RunOnce
    that began on a cancelled context returns an error.
   */
  predicate Enabled(p: Pool, s: Step, parentCancelled: bool) {
    match s
    case PaceReturns(id) => id in p.workers && p.workers[id].Pacing?
    case PaceFails(id, _) => id in p.workers && p.workers[id].Pacing?
    case RunOnceReturns(id, o) =>
      && id in p.workers && p.workers[id].Operating?
      && 0 <= o.kind < KINDS
      && (!p.workers[id].intact ==> o.error.Some?)
    case CheckContext(id) => id in p.workers && p.workers[id].Completed?
    case RecordOutcome(id) => id in p.workers && p.workers[id].Recording?
    case Decide(id) => id in p.workers && p.workers[id].Recorded?
    case WorkerFinishes(id) => id in p.workers && p.workers[id].Finishing? && p.finish.NotFinished?
    case FinishReturns(id) => id in p.workers && p.workers[id].Finishing? && p.finish.StopCancelled?
    case ParentFires => p.parentWatch && parentCancelled
    case DurationFires => p.durationWatch
    case ParentWatchEnds => p.parentWatch && p.closer.DoneClosed?
    case DurationWatchEnds => p.durationWatch && p.closer.DoneClosed?
    case FinishStats(_) => p.finish.ErrorSet?
    case FinishCancels => p.finish.StatsFinished?
    case WorkerStops(id) => id in p.workers && p.workers[id].Exiting?
    case WaitGroupDone(id) => id in p.workers && p.workers[id].Departed?
    case WaitGroupDrains => p.closer.Awaiting? && p.workers == map[]
    case PaceCloses => p.closer.Drained?
    case DoneCloses => p.closer.PaceClosed?
  }

  function Moved(p: Pool, id: nat, phase: Phase): (q: Pool) {
    p.(workers := p.workers[id := phase])
  }

  /** Entering finish: only the first caller sets the error. */
  function Begun(p: Pool, error: Option<Failure>): (q: Pool) {
    if p.finish.NotFinished? then p.(finish := ErrorSet(error), finalErr := error) else p
  }

  /** The whole body of finishOnce. */
  function WholeFinish(p: Pool, error: Option<Failure>, now: int): (q: Pool) {
    p.(finish := StopCancelled(error), finalErr := error, stats := RunStatistics.Finish(p.stats, now, TextOf(error)))
  }

  /** workerStopped: delete from the map, and the saturating decrement of the active clients. */
  function Untracked(p: Pool, id: nat): (q: Pool) {
    var active := p.stats.activeClients;
    p.(tracked := p.tracked - {id}, stats := p.stats.(activeClients := if active > 0 then active - 1 else 0))
  }

  function Stopped(p: Pool, id: nat): (q: Pool) {
    Untracked(Moved(p, id, Departed), id)
  }

  function Next(p: Pool, s: Step): (q: Pool)
    requires Enabled(p, s, true)
  {
    match s
    case PaceReturns(id) => Moved(p, id, Operating(!ContextCancelled(p, id)))
    case PaceFails(id, e) => Moved(p, id, if ContextCancelled(p, id) then Exiting else Finishing(e))
    case RunOnceReturns(id, o) => Moved(p, id, Completed(o))
    case CheckContext(id) =>
      var o := p.workers[id].outcome;
      Moved(p, id, if o.error.Some? && ContextCancelled(p, id) then Exiting else Recording(o))
    case RecordOutcome(id) =>
      var o := p.workers[id].outcome;
      Moved(p, id, Recorded(o)).(stats := Record(p.stats, CompletionOf(o)))
    case Decide(id) =>
      var o := p.workers[id].outcome;
      Moved(p, id, if o.error.None? then Pacing
                   else if ContextCancelled(p, id) then Exiting
                   else if o.counted then Pacing
                   else Finishing(o.error.value))
    case WorkerFinishes(id) => Begun(p, Some(p.workers[id].error))
    case FinishReturns(id) => Moved(p, id, Exiting)
    case ParentFires => Begun(p, Some(CANCELED)).(parentWatch := false)
    case DurationFires => Begun(p, None).(durationWatch := false)
    case ParentWatchEnds => p.(parentWatch := false)
    case DurationWatchEnds => p.(durationWatch := false)
    case FinishStats(now) =>
      p.(finish := StatsFinished(p.finish.error), stats := RunStatistics.Finish(p.stats, now, TextOf(p.finish.error)))
    case FinishCancels => p.(finish := StopCancelled(p.finish.error))
    case WorkerStops(id) => Stopped(p, id)
    case WaitGroupDone(id) => p.(workers := p.workers - {id})
    case WaitGroupDrains => p.(closer := Drained(p.nextID))
    case PaceCloses => p.(closer := PaceClosed(p.closer.at), ticker := None)
    case DoneCloses => p.(closer := DoneClosed(p.closer.at))
  }

  // ----- the invariant

  function Active(p: Pool): (ids: set<nat>) {
    set id | id in p.workers && !p.workers[id].Departed?
  }

  /** Tracked workers are live, live ids have been handed out, and untracked live workers are cancelled. */
  ghost predicate IdsAgree(p: Pool) {
    && p.tracked <= Active(p)
    && (forall id :: id in p.workers ==> id < p.nextID)
    && (forall id :: id in p.cancelled ==> id < p.nextID)
    && p.tracked !! p.cancelled
    && (forall id :: id in Active(p) && id !in p.tracked ==> id in p.cancelled)
  }

  /** A worker leaves only on a cancelled context, and an operation not intact began on one. */
  ghost predicate LeavesCancelled(p: Pool) {
    forall id :: id in p.workers && (p.workers[id].Exiting? || p.workers[id].Departed? || p.workers[id] == Operating(false))
      ==> ContextCancelled(p, id)
  }

  ghost predicate CountsAgree(p: Pool) {
    p.stats.activeClients == |Active(p)|
  }

  /** Until finish has cancelled the stop context, all the configured clients are tracked, worker 0 among them. */
  ghost predicate FullUntilFinish(p: Pool) {
    !p.finish.StopCancelled? ==> |p.tracked| == p.stats.configuredClients && 0 in p.tracked
  }

  /** The wait group drains only after finish; workers of that time or before are gone. */
  ghost predicate DrainedAfterFinish(p: Pool) {
    !p.closer.Awaiting? ==>
      && p.finish.StopCancelled?
      && p.closer.at <= p.nextID
      && forall id :: id in p.workers ==> p.closer.at <= id
  }

  ghost predicate FinishAgrees(p: Pool) {
    && (p.finish.NotFinished? ==> p.finalErr.None?)
    && (!p.finish.NotFinished? ==> p.finalErr == p.finish.error)
    && (p.stats.finishedAt.Some? <==> p.finish.StatsFinished? || p.finish.StopCancelled?)
    && (p.finish.NotFinished? ==> p.parentWatch && p.durationWatch)
  }

  /** The phases that still carry an outcome carry a valid kind, and so does the log. */
  ghost predicate KindsValid(p: Pool) {
    && ValidKinds(p.stats.log)
    && forall id :: id in p.workers && (p.workers[id].Completed? || p.workers[id].Recording?) ==>
         0 <= p.workers[id].outcome.kind < KINDS
  }

  ghost predicate Inv(p: Pool) {
    && IdsAgree(p)
    && LeavesCancelled(p)
    && CountsAgree(p)
    && FullUntilFinish(p)
    && DrainedAfterFinish(p)
    && FinishAgrees(p)
    && KindsValid(p)
    && CompactError(p.stats)
  }

  // ----- every step keeps it

  /** Moving a live worker to a live phase changes no id set. */
  lemma {:induction false} MovedActive(p: Pool, id: nat, phase: Phase)
    requires id in p.workers && !p.workers[id].Departed? && !phase.Departed?
    ensures Active(Moved(p, id, phase)) == Active(p)
  {
  }

  lemma {:induction false} MovedInv(p: Pool, id: nat, phase: Phase)
    requires Inv(p) && id in p.workers && !p.workers[id].Departed? && !phase.Departed?
    requires phase.Exiting? || phase == Operating(false) ==> ContextCancelled(p, id)
    requires phase.Completed? || phase.Recording? ==> 0 <= phase.outcome.kind < KINDS
    ensures Inv(Moved(p, id, phase))
  {
    MovedActive(p, id, phase);
    var q := Moved(p, id, phase);
    assert IdsAgree(q);
    assert LeavesCancelled(q);
    assert KindsValid(q);
  }

  lemma {:induction false} RecordInv(p: Pool, id: nat)
    requires Inv(p) && id in p.workers && p.workers[id].Recording?
    ensures Inv(Next(p, RecordOutcome(id)))
  {
    var o := p.workers[id].outcome;
    var q := Moved(p, id, Recorded(o));
    MovedInv(p, id, Recorded(o));
    var r := Next(p, RecordOutcome(id));
    assert r == q.(stats := Record(q.stats, CompletionOf(o)));
    assert Active(r) == Active(q);
  }

  lemma {:induction false} BegunInv(p: Pool, error: Option<Failure>)
    requires Inv(p)
    ensures Inv(Begun(p, error))
  {
  }

  lemma {:induction false} FinishStatsInv(p: Pool, now: int)
    requires Inv(p) && p.finish.ErrorSet?
    ensures Inv(Next(p, FinishStats(now)))
  {
  }

  lemma {:induction false} FinishCancelsInv(p: Pool)
    requires Inv(p) && p.finish.StatsFinished?
    ensures Inv(Next(p, FinishCancels))
  {
  }

  lemma {:induction false} WholeFinishInv(p: Pool, error: Option<Failure>, now: int)
    requires Inv(p) && p.finish.NotFinished?
    ensures Inv(WholeFinish(p, error, now))
  {
  }

  /** A tracked worker stops only after finish, so the tracked count is not disturbed before. */
  lemma {:induction false} StoppedInv(p: Pool, id: nat)
    requires Inv(p) && id in p.workers && p.workers[id].Exiting?
    ensures Inv(Stopped(p, id))
    ensures Stopped(p, id).stats.activeClients == p.stats.activeClients - 1
  {
    var q := Stopped(p, id);
    assert id in Active(p);
    assert Active(q) == Active(p) - {id};
    assert |Active(q)| == |Active(p)| - 1;
    assert ContextCancelled(p, id);
    assert !p.finish.StopCancelled? ==> id !in p.tracked;
    assert !p.finish.StopCancelled? ==> q.tracked == p.tracked;
    assert IdsAgree(q);
    assert LeavesCancelled(q);
    assert KindsValid(q);
  }

  lemma {:induction false} WaitGroupDoneInv(p: Pool, id: nat)
    requires Inv(p) && id in p.workers && p.workers[id].Departed?
    ensures Inv(Next(p, WaitGroupDone(id)))
  {
    var q := Next(p, WaitGroupDone(id));
    assert Active(q) == Active(p);
  }

  /** The wait group cannot drain before finish: worker 0 would still be there. */
  lemma {:induction false} DrainsInv(p: Pool)
    requires Inv(p) && p.closer.Awaiting? && p.workers == map[]
    ensures p.finish.StopCancelled?
    ensures Inv(Next(p, WaitGroupDrains))
  {
  }

  lemma {:induction false} CloserInv(p: Pool, s: Step)
    requires Inv(p) && Enabled(p, s, true)
    requires s.PaceCloses? || s.DoneCloses? || s.ParentWatchEnds? || s.DurationWatchEnds?
    ensures Inv(Next(p, s))
  {
  }

  /** A watcher that fires disarms itself and begins the finish, if it is the first. */
  lemma {:induction false} FiredInv(p: Pool, parent: bool, duration: bool, error: Option<Failure>)
    requires Inv(p)
    ensures Inv(Begun(p, error).(parentWatch := parent, durationWatch := duration))
  {
  }

  /** Every step of the pool keeps the invariant. */
  lemma {:induction false} StepInv(p: Pool, s: Step)
    requires Inv(p) && Enabled(p, s, true)
    ensures Inv(Next(p, s))
  {
    match s
    case PaceReturns(id) => MovedInv(p, id, Operating(!ContextCancelled(p, id)));
    case PaceFails(id, e) => MovedInv(p, id, if ContextCancelled(p, id) then Exiting else Finishing(e));
    case RunOnceReturns(id, o) => MovedInv(p, id, Completed(o));
    case CheckContext(id) =>
      var o := p.workers[id].outcome;
      MovedInv(p, id, if o.error.Some? && ContextCancelled(p, id) then Exiting else Recording(o));
    case RecordOutcome(id) => RecordInv(p, id);
    case Decide(id) =>
      var o := p.workers[id].outcome;
      MovedInv(p, id, if o.error.None? then Pacing else if ContextCancelled(p, id) then Exiting
                      else if o.counted then Pacing else Finishing(o.error.value));
    case WorkerFinishes(id) => BegunInv(p, Some(p.workers[id].error));
    case FinishReturns(id) => MovedInv(p, id, Exiting);
    case ParentFires =>
      FiredInv(p, false, p.durationWatch, Some(CANCELED));
    case DurationFires =>
      FiredInv(p, p.parentWatch, false, None);
    case ParentWatchEnds => CloserInv(p, s);
    case DurationWatchEnds => CloserInv(p, s);
    case FinishStats(now) => FinishStatsInv(p, now);
    case FinishCancels => FinishCancelsInv(p);
    case WorkerStops(id) => StoppedInv(p, id);
    case WaitGroupDone(id) => WaitGroupDoneInv(p, id);
    case WaitGroupDrains => DrainsInv(p);
    case PaceCloses => CloserInv(p, s);
    case DoneCloses => CloserInv(p, s);
  }

  // ----- resizing keeps it

  lemma {:induction false} GrowActive(p: Pool, n: nat)
    requires IdsAgree(p)
    ensures Active(Grow(p, n)) == Active(p) + NewIDs(p.nextID, n)
    ensures Active(p) !! NewIDs(p.nextID, n)
    ensures |Active(Grow(p, n))| == |Active(p)| + n
    ensures |Grow(p, n).tracked| == |p.tracked| + n
  {
    var ids := NewIDs(p.nextID, n);
    assert forall id :: id in Active(p) ==> id < p.nextID;
    assert Active(Grow(p, n)) == Active(p) + ids;
    assert Active(p) !! ids;
    assert p.tracked !! ids;
    assert |Active(p) + ids| == |Active(p)| + |ids|;
    assert |p.tracked + ids| == |p.tracked| + |ids|;
  }

  lemma {:induction false} GrowIds(p: Pool, n: nat)
    requires IdsAgree(p) && LeavesCancelled(p) && KindsValid(p)
    ensures IdsAgree(Grow(p, n)) && LeavesCancelled(Grow(p, n)) && KindsValid(Grow(p, n))
  {
    var q := Grow(p, n);
    GrowActive(p, n);
    assert forall id :: id in p.workers ==> id !in NewIDs(p.nextID, n);
    assert forall id :: id in p.workers ==> q.workers[id] == p.workers[id];
  }

  /** The invariant without the clause on the tracked count, which a resize re-establishes. */
  ghost predicate InvButFull(p: Pool) {
    && IdsAgree(p) && LeavesCancelled(p) && CountsAgree(p) && DrainedAfterFinish(p)
    && FinishAgrees(p) && KindsValid(p) && CompactError(p.stats)
    && (!p.finish.StopCancelled? ==> p.nextID == 0 || 0 in p.tracked)
  }

  lemma {:induction false} GrowInv(p: Pool, n: nat, q: Pool)
    requires InvButFull(p) && q == Grow(p, n)
    requires !p.finish.StopCancelled? ==> |p.tracked| + n == p.stats.configuredClients && |p.tracked| + n >= 1
    ensures Inv(q)
  {
    GrowActive(p, n);
    GrowIds(p, n);
    if !p.finish.StopCancelled? {
      if p.nextID == 0 && 0 !in p.tracked {
        assert p.tracked == {};
        assert 0 in NewIDs(p.nextID, n);
      }
      assert 0 in q.tracked;
    }
    assert DrainedAfterFinish(q);
  }

  lemma {:induction false} ShrunkInv(p: Pool, target: nat, q: Pool)
    requires InvButFull(p) && Shrunk(p, target, q) && 1 <= target < |p.tracked|
    requires p.stats.configuredClients == target
    ensures Inv(q)
  {
  }

  /** What an accepted alter leaves alone, and the clients it configures. */
  lemma {:induction false} AlteredFrame(p: Pool, a: AlterOptions, q: Pool)
    requires ValidateAlter(a).None? && Altered(p, a, q)
    ensures q.stats.configuredClients == OrElse(a.clients, p.stats.configuredClients)
    ensures q.finish == p.finish && q.finalErr == p.finalErr && q.closer == p.closer
    ensures q.parentWatch == p.parentWatch && q.durationWatch == p.durationWatch
    ensures q.stats == p.stats.(configuredClients := q.stats.configuredClients, activeClients := q.stats.activeClients)
  {
  }

  lemma {:induction false} ReconfiguredInv(p: Pool, targetTPS: Option<int>, clients: int)
    requires Inv(p) && (targetTPS.Some? ==> targetTPS.value >= 1)
    ensures Inv(Repaced(p, targetTPS))
    ensures InvButFull(Configure(Repaced(p, targetTPS), clients))
  {
  }

  /** An accepted alter of the clients, to a larger or equal number. */
  lemma {:induction false} AlterGrowsInv(p: Pool, targetTPS: Option<int>, target: nat, n: nat, q: Pool)
    requires Inv(p) && (targetTPS.Some? ==> targetTPS.value >= 1) && target >= 1 && |p.tracked| + n == target
    requires q == Grow(Configure(Repaced(p, targetTPS), target), n)
    ensures Inv(q)
  {
    var d := Configure(Repaced(p, targetTPS), target);
    assert InvButFull(d) by { ReconfiguredInv(p, targetTPS, target); }
    GrowInv(d, n, q);
  }

  /** And to a smaller one. */
  lemma {:induction false} AlterShrinksInv(p: Pool, targetTPS: Option<int>, target: nat, q: Pool)
    requires Inv(p) && (targetTPS.Some? ==> targetTPS.value >= 1) && 1 <= target < |p.tracked|
    requires Shrunk(Configure(Repaced(p, targetTPS), target), target, q)
    ensures Inv(q)
  {
    var d := Configure(Repaced(p, targetTPS), target);
    assert InvButFull(d) by { ReconfiguredInv(p, targetTPS, target); }
    ShrunkInv(d, target, q);
  }

  /** An accepted alter keeps the invariant, whenever it comes, before or after a finish. */
  lemma {:induction false} AlteredInv(p: Pool, a: AlterOptions, q: Pool)
    requires Inv(p) && ValidateAlter(a).None? && Altered(p, a, q)
    ensures Inv(q)
  {
    if a.clients.Some? {
      AlteredClientsInv(p, a, q, a.clients.value);
      return;
    }
    ReconfiguredInv(p, a.targetTPS, 0);
  }

  lemma {:induction false} AlteredClientsInv(p: Pool, a: AlterOptions, q: Pool, target: nat)
    requires Inv(p) && ValidateAlter(a).None? && Altered(p, a, q) && a.clients == Some(target)
    ensures Inv(q)
  {
    if |p.tracked| <= target {
      AlterGrowsInv(p, a.targetTPS, target, target - |p.tracked|, q);
      return;
    }
    AlterShrinksInv(p, a.targetTPS, target, q);
  }

  /** The workers there were stay as they are, those that come are new, and no context is revived. */
  ghost predicate Extends(p: Pool, q: Pool) {
    && q.nextID >= p.nextID && p.cancelled <= q.cancelled && q.finish == p.finish
    && (forall id :: id in p.workers && id < p.nextID ==> id in q.workers && q.workers[id] == p.workers[id])
    && (forall id :: id in q.workers ==>
          (id in p.workers && q.workers[id] == p.workers[id]) || (p.nextID <= id && q.workers[id].Pacing?))
  }

  lemma {:induction false} SizedExtends(p: Pool, target: nat, q: Pool)
    requires Sized(p, target, q)
    ensures Extends(p, q)
  {
  }

  lemma {:induction false} AlteredExtends(p: Pool, a: AlterOptions, q: Pool)
    requires ValidateAlter(a).None? && Altered(p, a, q)
    ensures Extends(p, q)
  {
    if a.clients.Some? {
      SizedExtends(Configure(Repaced(p, a.targetTPS), a.clients.value), a.clients.value, q);
    }
  }

  lemma {:induction false} NewPoolInv(options: StartOptions, now: int)
    requires options.clients >= 1
    requires options.targetTPS.Some? ==> options.targetTPS.value >= 1
    ensures Inv(NewPool(options, now))
    ensures NewPool(options, now).stats.configuredClients == options.clients
  {
    var empty := EmptyPool(options, now);
    assert Active(empty) == {};
    EmptyIsCompact();
    assert InvButFull(empty);
    GrowInv(empty, options.clients, NewPool(options, now));
  }

  /** newActiveRun resizes an empty run, which configures what is configured already. */
  lemma {:induction false} FirstResize(options: StartOptions, now: int, p: Pool, q: Pool)
    requires options.clients >= 1
    requires options.targetTPS.Some? ==> options.targetTPS.value >= 1
    requires p == EmptyPool(options, now) && Resized(p, options.clients, q)
    ensures q == NewPool(options, now)
  {
  }
}
