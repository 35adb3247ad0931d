/**
  `activeRun` of internal/benchrunner/runtime.go as an object: each method is one critical
  section of the code, proved to be the pool transition of the same name.
 */
module ActiveRuns {
  import opened Wrappers
  import opened ErrorText
  import opened Options
  import opened RunStatistics
  import opened WorkerPool
  import opened WorkerLoops
  import Samples

  lemma {:induction false} PacingUnion(w: map<nat, Phase>, a: set<nat>, b: set<nat>)
    ensures w + PacingAll(a) + PacingAll(b) == w + PacingAll(a + b)
  {
  }

  lemma {:induction false} StartedTwice(p: Pool, a: set<nat>, b: set<nat>)
    requires a !! b
    ensures Started(Started(p, a), b) == Started(p, a + b)
  {
    PacingUnion(p.workers, a, b);
    assert p.tracked + a + b == p.tracked + (a + b);
    assert |a + b| == |a| + |b|;
  }

  lemma {:induction false} GrowOneMore(p: Pool, n: nat)
    ensures Grow(Grow(p, n), 1) == Grow(p, n + 1)
  {
    NewIDsSplit(p.nextID, n);
    StartedTwice(p, NewIDs(p.nextID, n), NewIDs(p.nextID + n, 1));
  }

  lemma {:induction false} NewIDsSplit(first: nat, n: nat)
    ensures NewIDs(first, n) !! NewIDs(first + n, 1)
    ensures NewIDs(first, n + 1) == NewIDs(first, n) + NewIDs(first + n, 1)
  {
  }

  lemma {:induction false} GrowNone(p: Pool)
    ensures Grow(p, 0) == p
  {
  }

  /** Starting one worker, field by field. */
  lemma {:induction false} StartOne(p: Pool)
    ensures Grow(p, 1) == p.(nextID := p.nextID + 1, tracked := p.tracked + {p.nextID},
                             workers := p.workers[p.nextID := Pacing],
                             stats := p.stats.(activeClients := p.stats.activeClients + 1))
  {
  }

  lemma {:induction false} StartOneIds(p: Pool)
    requires IdsAgree(p)
    ensures IdsAgree(Grow(p, 1)) && |Grow(p, 1).tracked| == |p.tracked| + 1
  {
  }

  lemma {:induction false} GreatestExists(s: set<nat>)
    requires s != {}
    ensures exists x :: x in s && forall y :: y in s ==> y <= x
  {
    var x :| x in s;
    if s - {x} != {} {
      GreatestExists(s - {x});
      var m :| m in s - {x} && forall y :: y in s - {x} ==> y <= m;
      var best := if x < m then m else x;
      forall y | y in s ensures y <= best {
        assert y == x || y in s - {x};
      }
      assert best in s;
    } else {
      assert s == {x};
      assert x in s && forall y :: y in s ==> y <= x;
    }
  }

  ghost predicate Descending(ids: seq<nat>) {
    forall i, j :: 0 <= i < j < |ids| ==> ids[i] > ids[j]
  }

  ghost predicate Lists(ids: seq<nat>, s: set<nat>) {
    forall x :: x in s <==> x in ids
  }

  /** Appending a smaller id keeps the order and adds one element. */
  lemma {:induction false} AppendSmaller(ids: seq<nat>, s: set<nat>, x: nat)
    requires Descending(ids) && Lists(ids, s) && forall i :: 0 <= i < |ids| ==> ids[i] > x
    ensures Descending(ids + [x]) && Lists(ids + [x], s + {x})
  {
  }

  /** The keys of the map, collected and sorted in reverse. */
  method DescendingIDs(keys: set<nat>) returns (ids: seq<nat>)
    ensures Descending(ids) && Lists(ids, keys)
  {
    ids := [];
    var rest := keys;
    while rest != {}
      invariant Descending(ids) && rest <= keys && Lists(ids, keys - rest)
      invariant forall i, x :: 0 <= i < |ids| && x in rest ==> ids[i] > x
      decreases |rest|
    {
      GreatestExists(rest);
      var x :| x in rest && forall y :: y in rest ==> y <= x;
      AppendSmaller(ids, keys - rest, x);
      assert keys - (rest - {x}) == (keys - rest) + {x};
      ids := ids + [x];
      rest := rest - {x};
    }
    assert keys - {} == keys;
  }

  /** Where the shrink loop is: ids left to visit, ids kept, contexts cancelled since `before`. */
  ghost predicate Shrinking(all: set<nat>, kept: set<nat>, rest: seq<nat>, before: set<nat>, cancelled: set<nat>) {
    && Descending(rest) && Lists(rest, kept)
    && KeepsSmallest(all, kept)
    && cancelled == before + (all - kept)
  }

  /** Dropping the first of the descending ids left drops the greatest id kept. */
  lemma {:induction false} DropFirst(
    all: set<nat>, kept: set<nat>, rest: seq<nat>, before: set<nat>, cancelled: set<nat>)
    requires rest != [] && Shrinking(all, kept, rest, before, cancelled)
    ensures rest[0] in kept
    ensures Shrinking(all, kept - {rest[0]}, rest[1..], before, cancelled + {rest[0]})
  {
  }

  class ActiveRun {
    /** Which run of the coordinator this is. */
    ghost const handle: nat
    const stats: RunStats
    /** the keys of the code's map of cancel functions */
    var workers: set<nat>
    /** the workers whose cancel function has been called */
    var cancelled: set<nat>
    var nextID: nat
    var finalErr: Option<Failure>
    /** finishOnce, and whether the stop context has been cancelled */
    var finish: Finish
    var closer: Closer
    var parentWatch: bool
    var durationWatch: bool
    var ticker: Option<int>
    /** where each goroutine is */
    ghost var phases: map<nat, Phase>

    ghost function View(): (p: Pool)
      reads this, stats
    {
      Pool(nextID, workers, cancelled, phases, finish, finalErr, closer, parentWatch, durationWatch, ticker,
           stats.View())
    }

    ghost predicate Valid()
      reads this, stats, stats.perKind, stats.latency, stats.latency.counts
    {
      stats.Valid() && Inv(View())
    }

    /** newActiveRun. */
    constructor (options: StartOptions, now: int, ghost handle: nat)
      requires options.clients >= 1
      requires options.targetTPS.Some? ==> options.targetTPS.value >= 1
      ensures Valid() && View() == NewPool(options, now) && this.handle == handle
      ensures fresh(stats) && fresh(stats.perKind) && fresh(stats.latency) && fresh(stats.latency.counts)
    {
      this.handle := handle;
      stats := new RunStats(now, options.warmupSeconds * 1_000_000_000, options.clients);
      workers, cancelled, nextID := {}, {}, 0;
      finalErr, finish, closer := None, NotFinished, Awaiting;
      parentWatch, durationWatch := true, true;
      ticker := if options.targetTPS.Some? then Some(Interval(options.targetTPS.value)) else None;
      phases := map[];
      new;
      ghost var empty := View();
      assert Active(empty) == {};
      ResizeWorkers(options.clients);
      FirstResize(options, now, empty, View());
      NewPoolInv(options, now);
    }

    /** startWorkerLocked, up to the go statement. */
    method StartWorkerLocked()
      requires stats.Valid() && IdsAgree(View())
      modifies this`workers, this`nextID, this`phases, stats`activeClients
      ensures stats.Valid() && View() == Grow(old(View()), 1) && IdsAgree(View())
      ensures |workers| == |old(workers)| + 1
    {
      StartOne(View());
      StartOneIds(View());
      var workerID := nextID;
      nextID := nextID + 1;
      workers := workers + {workerID};
      stats.WorkerStarted();
      phases := phases[workerID := Pacing];
    }

    /** resizeWorkers: grow to the target, or cancel the largest ids down to it. */
    method ResizeWorkers(target: nat)
      requires stats.Valid() && IdsAgree(View())
      modifies this`workers, this`cancelled, this`nextID, this`phases, stats`activeClients, stats`configuredClients
      ensures stats.Valid() && Resized(old(View()), target, View())
    {
      stats.SetConfiguredClients(target);
      ghost var configured := View();
      assert configured == Configure(old(View()), target);
      assert Active(configured) == Active(old(View()));
      GrowWorkers(target);
      if |workers| <= target {
        return;
      }
      GrowNone(configured);
      ShrinkWorkers(target);
    }

    method GrowWorkers(target: nat)
      requires stats.Valid() && IdsAgree(View())
      modifies this`workers, this`nextID, this`phases, stats`activeClients
      ensures stats.Valid()
      ensures View() == Grow(old(View()), if |old(workers)| <= target then target - |old(workers)| else 0)
      ensures |workers| == if |old(workers)| <= target then target else |old(workers)|
    {
      ghost var n: nat := 0;
      GrowNone(View());
      while |workers| < target
        invariant stats.Valid() && IdsAgree(View()) && View() == Grow(old(View()), n)
        invariant |workers| == |old(workers)| + n
        invariant n > 0 ==> |workers| <= target
      {
        GrowOneMore(old(View()), n);
        StartWorkerLocked();
        n := n + 1;
      }
    }

    method ShrinkWorkers(target: nat)
      requires |workers| > target
      modifies this`workers, this`cancelled
      ensures KeepsSmallest(old(workers), workers) && |workers| == target
      ensures cancelled == old(cancelled) + (old(workers) - workers)
    {
      var workerIDs := DescendingIDs(workers);
      while workerIDs != []
        invariant Shrinking(old(workers), workers, workerIDs, old(cancelled), cancelled)
        invariant |workers| >= target
        decreases |workerIDs|
      {
        if |workers| <= target {
          return;
        }
        var workerID := workerIDs[0];
        DropFirst(old(workers), workers, workerIDs, old(cancelled), cancelled);
        workers := workers - {workerID};
        cancelled := cancelled + {workerID};
        workerIDs := workerIDs[1..];
      }
      assert workers == {};
    }

    /** Alter: the request is checked again, then the pace and the number of workers change. */
    method Alter(a: AlterOptions) returns (error: Option<OptionError>)
      requires Valid()
      modifies this, stats`activeClients, stats`configuredClients
      ensures Valid()
      ensures error == ValidateAlter(a)
      ensures error.Some? ==> View() == old(View())
      ensures error.None? ==> Altered(old(View()), a, View())
    {
      if a.clients.None? && a.targetTPS.None? {
        return Some(EmptyAlter);
      }
      if a.clients.Some? && a.clients.value < 1 {
        return Some(ClientsTooSmall);
      }
      if a.targetTPS.Some? && a.targetTPS.value < 1 {
        return Some(TargetTPSTooSmall);
      }
      if a.targetTPS.Some? {
        ticker := Some(Interval(a.targetTPS.value));
      }
      assert Active(View()) == Active(old(View()));
      if a.clients.Some? {
        ResizeWorkers(a.clients.value);
      }
      AlteredInv(old(View()), a, View());
      return None;
    }

    /** workerStopped. */
    method WorkerStopped(workerID: nat)
      requires stats.Valid()
      modifies this`workers, stats`activeClients
      ensures stats.Valid() && View() == Untracked(old(View()), workerID)
    {
      workers := workers - {workerID};
      stats.WorkerStopped();
    }

    /** finish: its body runs once; it is the three finish steps in a row. */
    method FinishRun(error: Option<Failure>, now: int)
      requires Valid() && (finish.NotFinished? || finish.StopCancelled?)
      modifies this`finish, this`finalErr, stats`finishedAt, stats`latestError
      ensures Valid()
      ensures old(finish).StopCancelled? ==> View() == old(View())
      ensures old(finish).NotFinished? ==> View() == WholeFinish(old(View()), error, now)
    {
      if finish.NotFinished? {
        WholeFinishInv(View(), error, now);
        finalErr := error;
        stats.FinishRun(now, TextOf(error));
        finish := StopCancelled(error);
      }
    }

    /** The deferred calls of a worker; the count of active clients does go down by one. */
    method Leave(workerID: nat)
      requires Valid() && workerID in phases && !phases[workerID].Departed? && ContextCancelled(View(), workerID)
      modifies this`workers, this`phases, stats`activeClients
      ensures Valid() && View() == Gone(old(View()), workerID)
      ensures stats.activeClients == old(stats.activeClients) - 1
    {
      ghost var gone := Gone(View(), workerID);
      GoneInv(View(), workerID);
      WorkerStopped(workerID);
      phases := phases - {workerID};
      assert View() == gone;
    }

    /** The record call of a worker, into the constant-memory statistics. */
    method RecordBy(workerID: nat, outcome: Outcome)
      requires Valid() && workerID in phases && phases[workerID].Pacing? && 0 <= outcome.kind < KINDS
      modifies stats, stats.perKind, stats.latency, stats.latency.counts
      ensures Valid() && View() == After(old(View()), outcome)
    {
      ghost var after := After(View(), outcome);
      assert Inv(after);
      stats.RecordOperation(CompletionOf(outcome));
      assert View() == after;
    }

    method FinishAndLeave(workerID: nat, error: Option<Failure>, now: int)
      requires Valid() && workerID in phases && !phases[workerID].Departed? && finish.NotFinished?
      modifies this`finish, this`finalErr, stats`finishedAt, stats`latestError
      modifies this`workers, this`phases, stats`activeClients
      ensures Valid() && View() == Gone(WholeFinish(old(View()), error, now), workerID)
    {
      FinishRun(error, now);
      Leave(workerID);
    }

    /**
      One round of the loop in startWorkerLocked, with nothing in between: RoundOf says what it
      does, and RoundIsPlayed that these are steps of the pool.
     */
    method WorkerRound(workerID: nat, r: Round) returns (again: bool)
      requires Valid() && workerID in phases && phases[workerID].Pacing? && Reliable(View(), workerID, r)
      requires finish.NotFinished? || finish.StopCancelled?
      modifies this, stats, stats.perKind, stats.latency, stats.latency.counts
      ensures Valid() && View() == RoundOf(old(View()), workerID, r)
      ensures again == GoesOn(old(View()), workerID, r)
    {
      if r.pace.Some? {
        if workerID in cancelled || finish.StopCancelled? {
          Leave(workerID);
          return false;
        }
        FinishAndLeave(workerID, r.pace, r.now);
        return false;
      }
      if r.outcome.error.Some? && (workerID in cancelled || finish.StopCancelled?) {
        Leave(workerID);
        return false;
      }
      RecordBy(workerID, r.outcome);
      if r.outcome.error.Some? {
        if r.outcome.counted {
          return true;
        }
        FinishAndLeave(workerID, r.outcome.error, r.now);
        return false;
      }
      return true;
    }

    /** The loop of startWorkerLocked, over the rounds it has met so far. */
    method WorkerLoop(workerID: nat, rounds: seq<Round>)
      requires Valid() && workerID in phases && phases[workerID].Pacing?
      requires finish.NotFinished? || finish.StopCancelled?
      requires forall k :: 0 <= k < |rounds| ==> Reliable(View(), workerID, rounds[k])
      modifies this, stats, stats.perKind, stats.latency, stats.latency.counts
      ensures Valid() && View() == LoopOf(old(View()), workerID, rounds)
    {
      var rest := rounds;
      while rest != []
        invariant Valid() && workerID in phases && phases[workerID].Pacing?
        invariant finish.NotFinished? || finish.StopCancelled?
        invariant forall k :: 0 <= k < |rest| ==> Reliable(View(), workerID, rest[k])
        invariant LoopOf(View(), workerID, rest) == LoopOf(old(View()), workerID, rounds)
        decreases |rest|
      {
        var again := WorkerRound(workerID, rest[0]);
        if !again {
          return;
        }
        rest := rest[1..];
      }
    }

    /** Wait, once done is closed: the error the first finish was given. */
    method Wait() returns (error: Option<Failure>)
      requires Valid() && closer.DoneClosed?
      ensures View().finish == StopCancelled(error)
    {
      error := finalErr;
    }

    /** Sample. */
    method Sample(now: int) returns (sample: Samples.Sample)
      requires Valid()
      ensures sample == SampleOf(View().stats, now)
    {
      sample := stats.TakeSample(now);
    }
  }
}
