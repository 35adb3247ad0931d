/**
  The loop of one worker, the goroutine body of startWorkerLocked in
  internal/benchrunner/runtime.go, round by round, and that a round which nothing interrupts is
  a play of the pool machine's steps.
 */
module WorkerLoops {
  import opened Wrappers
  import opened ErrorText
  import opened RunStatistics
  import opened WorkerPool

  /** What one round of the loop meets: the gate's answer, the operation's, and the clock at a finish. */
  datatype Round = Round(pace: Option<Failure>, outcome: Outcome, now: int)

  /** The workload's side: one of the nine kinds, and an error on a cancelled context. */
  predicate Reliable(p: Pool, id: nat, r: Round) {
    0 <= r.outcome.kind < KINDS && (ContextCancelled(p, id) ==> r.outcome.error.Some?)
  }

  function FinishSteps(id: nat, now: int): (steps: seq<Step>) {
    [WorkerFinishes(id), FinishStats(now), FinishCancels, FinishReturns(id)]
  }

  function LeaveSteps(id: nat): (steps: seq<Step>) {
    [WorkerStops(id), WaitGroupDone(id)]
  }

  /** Whether the loop goes on after the round. */
  predicate GoesOn(p: Pool, id: nat, r: Round) {
    r.pace.None? && (r.outcome.error.None? || (r.outcome.counted && !ContextCancelled(p, id)))
  }

  /** Whether the round records an operation: all but the failures on a cancelled context. */
  predicate Records(p: Pool, id: nat, r: Round) {
    r.pace.None? && (r.outcome.error.None? || !ContextCancelled(p, id))
  }

  /** The steps of one round, when no other goroutine comes in between. */
  function RoundSteps(p: Pool, id: nat, r: Round): (steps: seq<Step>) {
    (if r.pace.Some? then [PaceFails(id, r.pace.value)]
     else [PaceReturns(id), RunOnceReturns(id, r.outcome), CheckContext(id)])
    + (if Records(p, id, r) then [RecordOutcome(id), Decide(id)] else [])
    + (if GoesOn(p, id, r) then []
       else if ContextCancelled(p, id) then LeaveSteps(id)
       else FinishSteps(id, r.now) + LeaveSteps(id))
  }

  /** The worker gone from the pool: its deferred workerStopped and wg.Done. */
  function Gone(p: Pool, id: nat): (q: Pool) {
    Untracked(p, id).(workers := p.workers - {id})
  }

  function After(p: Pool, o: Outcome): (q: Pool) {
    p.(stats := Record(p.stats, CompletionOf(o)))
  }

  /** What a round does: it may record an operation, finish the run, and leave. */
  function RoundOf(p: Pool, id: nat, r: Round): (q: Pool) {
    var recorded := if Records(p, id, r) then After(p, r.outcome) else p;
    if GoesOn(p, id, r) then recorded
    else if ContextCancelled(p, id) then Gone(recorded, id)
    else Gone(WholeFinish(recorded, if r.pace.Some? then r.pace else r.outcome.error, r.now), id)
  }

  lemma {:induction false} GoneInv(p: Pool, id: nat)
    requires Inv(p) && id in p.workers && !p.workers[id].Departed? && ContextCancelled(p, id)
    ensures Inv(Gone(p, id)) && Gone(p, id).stats.activeClients == p.stats.activeClients - 1
  {
    MovedInv(p, id, Exiting);
    var q := Moved(p, id, Exiting);
    StoppedInv(q, id);
    WaitGroupDoneInv(Stopped(q, id), id);
    GoneIsStopped(p, id, Exiting);
  }

  lemma {:induction false} GoneIsStopped(p: Pool, id: nat, phase: Phase)
    ensures var q := Stopped(Moved(p, id, phase), id);
            q.(workers := q.workers - {id}) == Gone(p, id)
  {
  }

  /** Taking the steps one after the other, if each is enabled when it comes. */
  function Play(p: Pool, steps: seq<Step>): (q: Option<Pool>)
    decreases |steps|
  {
    if steps == [] then Some(p)
    else if Enabled(p, steps[0], true) then Play(Next(p, steps[0]), steps[1..])
    else None
  }

  lemma {:induction false} PlayOne(p: Pool, s: Step, rest: seq<Step>)
    requires Enabled(p, s, true)
    ensures Play(p, [s] + rest) == Play(Next(p, s), rest)
  {
  }

  lemma {:induction false} PlayConcat(p: Pool, a: seq<Step>, m: Pool, b: seq<Step>)
    requires Play(p, a) == Some(m)
    ensures Play(p, a + b) == Play(m, b)
    decreases |a|
  {
    if a == [] {
      assert a + b == b;
    } else {
      PlayConcat(Next(p, a[0]), a[1..], m, b);
      assert a + b == [a[0]] + (a[1..] + b);
      PlayOne(p, a[0], a[1..] + b);
    }
  }

  lemma {:induction false} PlayTwo(p: Pool, s: Step, t: Step)
    requires Enabled(p, s, true) && Enabled(Next(p, s), t, true)
    ensures Play(p, [s, t]) == Some(Next(Next(p, s), t))
  {
    PlayOne(p, s, [t]);
    PlayOne(Next(p, s), t, []);
    assert [s, t] == [s] + [t] && [t] == [t] + [];
  }

  lemma {:induction false} LeavePlays(m: Pool, p: Pool, id: nat)
    requires id in m.workers && m == Moved(p, id, Exiting)
    ensures Play(m, LeaveSteps(id)) == Some(Gone(p, id))
  {
    PlayTwo(m, WorkerStops(id), WaitGroupDone(id));
    GoneIsStopped(p, id, Exiting);
  }

  lemma {:induction false} FinishPlays(m: Pool, p: Pool, id: nat, error: Failure, now: int)
    requires m == Moved(p, id, Finishing(error)) && p.finish.NotFinished?
    ensures Play(m, FinishSteps(id, now)) == Some(Moved(WholeFinish(p, Some(error), now), id, Exiting))
  {
    var a := Next(m, WorkerFinishes(id));
    var b := Next(a, FinishStats(now));
    PlayTwo(m, WorkerFinishes(id), FinishStats(now));
    PlayTwo(b, FinishCancels, FinishReturns(id));
    PlayConcat(m, [WorkerFinishes(id), FinishStats(now)], b, [FinishCancels, FinishReturns(id)]);
    assert FinishSteps(id, now) == [WorkerFinishes(id), FinishStats(now)] + [FinishCancels, FinishReturns(id)];
    assert p.workers[id := Finishing(error)][id := Exiting] == p.workers[id := Exiting];
  }

  lemma {:induction false} FinishLeavePlays(m: Pool, p: Pool, id: nat, error: Failure, now: int)
    requires m == Moved(p, id, Finishing(error)) && p.finish.NotFinished?
    ensures Play(m, FinishSteps(id, now) + LeaveSteps(id)) == Some(Gone(WholeFinish(p, Some(error), now), id))
  {
    var q := WholeFinish(p, Some(error), now);
    FinishPlays(m, p, id, error, now);
    PlayConcat(m, FinishSteps(id, now), Moved(q, id, Exiting), LeaveSteps(id));
    LeavePlays(Moved(q, id, Exiting), q, id);
  }

  lemma {:induction false} PaceFailsPlays(p: Pool, id: nat, r: Round)
    requires id in p.workers && p.workers[id].Pacing? && r.pace.Some?
    requires p.finish.NotFinished? || p.finish.StopCancelled?
    ensures Play(p, RoundSteps(p, id, r)) == Some(RoundOf(p, id, r))
  {
    var step := PaceFails(id, r.pace.value);
    var m := Next(p, step);
    if ContextCancelled(p, id) {
      LeavePlays(m, p, id);
      PlayOne(p, step, LeaveSteps(id));
      assert RoundSteps(p, id, r) == [step] + LeaveSteps(id);
    } else {
      FinishLeavePlays(m, p, id, r.pace.value, r.now);
      PlayOne(p, step, FinishSteps(id, r.now) + LeaveSteps(id));
      assert RoundSteps(p, id, r) == [step] + (FinishSteps(id, r.now) + LeaveSteps(id));
    }
  }

  function OperateSteps(id: nat, o: Outcome): (steps: seq<Step>) {
    [PaceReturns(id), RunOnceReturns(id, o), CheckContext(id)]
  }

  lemma {:induction false} OperatePlays(p: Pool, id: nat, r: Round)
    requires id in p.workers && p.workers[id].Pacing? && Reliable(p, id, r)
    ensures var o := r.outcome;
            Play(p, OperateSteps(id, o))
            == Some(Moved(p, id, if o.error.Some? && ContextCancelled(p, id) then Exiting else Recording(o)))
  {
    var o := r.outcome;
    var m := Next(p, PaceReturns(id));
    PlayOne(p, PaceReturns(id), [RunOnceReturns(id, o), CheckContext(id)]);
    assert OperateSteps(id, o) == [PaceReturns(id)] + [RunOnceReturns(id, o), CheckContext(id)];
    PlayTwo(m, RunOnceReturns(id, o), CheckContext(id));
    var phase := if o.error.Some? && ContextCancelled(p, id) then Exiting else Recording(o);
    assert m.workers[id := Completed(o)][id := phase] == p.workers[id := phase];
  }

  /** The phase in which Decide leaves a worker. */
  function Decided(p: Pool, id: nat, o: Outcome): (phase: Phase) {
    if o.error.None? then Pacing
    else if ContextCancelled(p, id) then Exiting
    else if o.counted then Pacing
    else Finishing(o.error.value)
  }

  lemma {:induction false} RecordPlays(p: Pool, id: nat, o: Outcome)
    requires id in p.workers
    ensures Play(Moved(p, id, Recording(o)), [RecordOutcome(id), Decide(id)])
         == Some(Moved(After(p, o), id, Decided(p, id, o)))
  {
    PlayTwo(Moved(p, id, Recording(o)), RecordOutcome(id), Decide(id));
    var phase := Decided(p, id, o);
    assert p.workers[id := Recording(o)][id := Recorded(o)][id := phase] == p.workers[id := phase];
  }

  lemma {:induction false} RecordedRoundPlays(p: Pool, id: nat, r: Round)
    requires id in p.workers && p.workers[id].Pacing? && Records(p, id, r)
    requires p.finish.NotFinished? || p.finish.StopCancelled?
    ensures Play(Moved(After(p, r.outcome), id, Decided(p, id, r.outcome)),
                 if GoesOn(p, id, r) then [] else FinishSteps(id, r.now) + LeaveSteps(id))
         == Some(RoundOf(p, id, r))
  {
    var q := After(p, r.outcome);
    if GoesOn(p, id, r) {
      assert q.workers[id := Pacing] == q.workers;
    } else {
      var error := r.outcome.error.value;
      FinishLeavePlays(Moved(q, id, Finishing(error)), q, id, error, r.now);
    }
  }

  lemma {:induction false} PaceReturnsPlays(p: Pool, id: nat, r: Round)
    requires id in p.workers && p.workers[id].Pacing? && Reliable(p, id, r) && r.pace.None?
    requires p.finish.NotFinished? || p.finish.StopCancelled?
    ensures Play(p, RoundSteps(p, id, r)) == Some(RoundOf(p, id, r))
  {
    var o := r.outcome;
    OperatePlays(p, id, r);
    if Records(p, id, r) {
      var m := Moved(p, id, Recording(o));
      var tail := if GoesOn(p, id, r) then [] else FinishSteps(id, r.now) + LeaveSteps(id);
      var two := [RecordOutcome(id), Decide(id)];
      RecordPlays(p, id, o);
      RecordedRoundPlays(p, id, r);
      PlayConcat(m, two, Moved(After(p, o), id, Decided(p, id, o)), tail);
      PlayConcat(p, OperateSteps(id, o), m, two + tail);
      assert RoundSteps(p, id, r) == OperateSteps(id, o) + (two + tail);
    } else {
      var m := Moved(p, id, Exiting);
      LeavePlays(m, p, id);
      PlayConcat(p, OperateSteps(id, o), m, LeaveSteps(id));
      assert RoundSteps(p, id, r) == OperateSteps(id, o) + LeaveSteps(id);
    }
  }

  /** A round that nothing interrupts is the play of its steps: the loop refines the pool machine. */
  lemma {:induction false} RoundIsPlayed(p: Pool, id: nat, r: Round)
    requires id in p.workers && p.workers[id].Pacing? && Reliable(p, id, r)
    requires p.finish.NotFinished? || p.finish.StopCancelled?
    ensures Play(p, RoundSteps(p, id, r)) == Some(RoundOf(p, id, r))
  {
    if r.pace.Some? {
      PaceFailsPlays(p, id, r);
    } else {
      PaceReturnsPlays(p, id, r);
    }
  }

  /** The loop over the rounds, until one of them leaves it. */
  function LoopOf(p: Pool, id: nat, rounds: seq<Round>): (q: Pool)
    decreases |rounds|
  {
    if rounds == [] then p
    else if GoesOn(p, id, rounds[0]) then LoopOf(RoundOf(p, id, rounds[0]), id, rounds[1..])
    else RoundOf(p, id, rounds[0])
  }

  ghost predicate AllGoOn(p: Pool, id: nat, rounds: seq<Round>) {
    forall k :: 0 <= k < |rounds| ==> GoesOn(p, id, rounds[k])
  }

  /**
    A worker is still there after its rounds exactly when the gate always let it pass and every
    operation succeeded, or failed counted while its context was not cancelled.
   */
  lemma {:induction false} StaysExactly(p: Pool, id: nat, rounds: seq<Round>)
    requires id in p.workers
    ensures AllGoOn(p, id, rounds)
       <==> forall k :: 0 <= k < |rounds| ==>
              && rounds[k].pace.None?
              && (rounds[k].outcome.error.None?
                  || (rounds[k].outcome.counted && id !in p.cancelled && !p.finish.StopCancelled?))
    ensures id in LoopOf(p, id, rounds).workers <==> AllGoOn(p, id, rounds)
    decreases |rounds|
  {
    if rounds != [] && GoesOn(p, id, rounds[0]) {
      StaysExactly(RoundOf(p, id, rounds[0]), id, rounds[1..]);
      assert rounds == [rounds[0]] + rounds[1..];
    }
  }

  function OutcomesOf(rounds: seq<Round>): (outs: seq<Outcome>) {
    seq(|rounds|, k requires 0 <= k < |rounds| => rounds[k].outcome)
  }

  /** The log has grown by the rounds' outcomes, and nothing but the statistics has changed. */
  ghost predicate OnlyRecorded(p: Pool, rounds: seq<Round>, q: Pool) {
    && q == p.(stats := q.stats)
    && p.stats.log <= q.stats.log && LogsAll(q.stats.log[|p.stats.log|..], OutcomesOf(rounds))
  }

  /** Rounds that go on are all recorded, in order and field by field, and change nothing but the statistics. */
  lemma {:induction false} LoopRecords(p: Pool, id: nat, rounds: seq<Round>)
    requires AllGoOn(p, id, rounds)
    ensures OnlyRecorded(p, rounds, LoopOf(p, id, rounds))
    decreases |rounds|
  {
    if rounds == [] {
      return;
    }
    var q := After(p, rounds[0].outcome);
    LoopRecords(q, id, rounds[1..]);
  }

  /** The error with which a round of a worker on a live context ends the run, if it does. */
  ghost predicate Ends(r: Round, error: Failure) {
    r.pace == Some(error) || (r.pace.None? && r.outcome.error == Some(error) && !r.outcome.counted)
  }

  /** What one round does to the run, with nothing in between, in terms of what it meets. */
  lemma {:induction false} RoundExactly(p: Pool, id: nat, r: Round)
    requires id in p.workers && (p.finish.NotFinished? || p.finish.StopCancelled?)
    ensures var live, q := id !in p.cancelled && !p.finish.StopCancelled?, RoundOf(p, id, r);
            && (if r.pace.None? && (r.outcome.error.None? || live)
                then |q.stats.log| == |p.stats.log| + 1 && p.stats.log <= q.stats.log
                     && Logs(q.stats.log[|p.stats.log|], r.outcome)
                else q.stats.log == p.stats.log)
            && (forall error :: live && Ends(r, error) ==>
                  && q.finish == StopCancelled(Some(error)) && q.finalErr == Some(error)
                  && (p.stats.finishedAt.None? ==> q.stats.finishedAt == Some(r.now))
                  && q.stats.latestError == Compact(error.text))
            && (!live || (forall error :: !Ends(r, error)) ==> q.finish == p.finish && q.finalErr == p.finalErr)
            && (id in q.workers <==> r.pace.None? && (r.outcome.error.None? || (r.outcome.counted && live)))
            && q.workers - {id} == p.workers - {id}
            && q.tracked == (if id in q.workers then p.tracked else p.tracked - {id})
  {
    assert (p.workers - {id}) - {id} == p.workers - {id};
    assert r.pace.Some? ==> Ends(r, r.pace.value);
    assert r.pace.None? && r.outcome.error.Some? && !r.outcome.counted ==> Ends(r, r.outcome.error.value);
  }
}
