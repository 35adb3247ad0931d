/**
  The run coordinator of internal/benchmarkrun/coordinator.go, with the results view of
  results.go.  Each critical section under the coordinator's lock is a function on the
  coordinator's fields, and a method of the class proved to compute it.
 */
module Coordinators {
  import opened Wrappers
  import opened ErrorText
  import opened Options
  import opened Samples
  import opened RunStatistics
  import opened WorkerPool
  import opened ActiveRuns

  datatype Status = Idle | Starting | Running | Stopping | Stopped | Failed

  datatype State = State(
    status: Status,
    options: StartOptions,
    startedAt: Option<int>,
    stoppedAt: Option<int>,
    error: Text)

  /** The zero value of StartOptions, the options of an idle coordinator. */
  const ZERO_OPTIONS: StartOptions := StartOptions(0, 0, 0, 0, false, OtherProfile(""), None, Unset, None)

  /** `run` and `cancel` name the run whose handle and cancel function are held. */
  datatype Coord = Coord(state: State, sample: Sample, run: Option<nat>, cancel: Option<nat>, runID: nat)

  const INITIAL: Coord := Coord(State(Idle, ZERO_OPTIONS, None, None, []), ZERO_SAMPLE, None, None, 0)

  predicate ActiveStatus(status: Status) {
    status.Starting? || status.Running? || status.Stopping?
  }

  predicate Terminal(status: Status) {
    status.Stopped? || status.Failed?
  }

  // ----- the critical sections

  /** Start, first section: rejected while a run is active. */
  function BeginStart(c: Coord, options: StartOptions): (r: Coord)
    requires !ActiveStatus(c.state.status)
  {
    Coord(State(Starting, options, None, None, []), ZERO_SAMPLE, None, Some(c.runID + 1), c.runID + 1)
  }

  /** Start, second section, after the runner handed a run over. */
  function CommitStart(c: Coord, id: nat, now: int): (r: Coord) {
    if c.runID != id then c
    else
      var s := c.state.(startedAt := if c.state.startedAt.None? then Some(now) else c.state.startedAt);
      c.(run := Some(id), state := if s.status.Starting? then s.(status := Running, error := []) else s)
  }

  /** finishStartFailure. */
  function FailStart(c: Coord, id: nat, options: StartOptions, error: Failure, now: int): (r: Coord) {
    if c.runID != id then c
    else
      Coord(
        if c.state.status.Stopping? && error.canceled
        then c.state.(status := Stopped, error := [], options := options, stoppedAt := Some(now))
        else State(Failed, options, None, Some(now), Compact(error.text)),
        ZERO_SAMPLE, None, None, c.runID)
  }

  /** Stop. */
  function StopRun(c: Coord): (r: Coord) {
    if c.state.status.Starting? || c.state.status.Running? then c.(state := c.state.(status := Stopping)) else c
  }

  /** The run whose context Stop cancels, if any. */
  function StopCancels(c: Coord): (id: Option<nat>) {
    if c.state.status.Starting? || c.state.status.Running? then c.cancel else None
  }

  /** waitForRun, after Wait has returned. */
  function FinishRun(c: Coord, id: nat, error: Option<Failure>, sample: Sample, now: int): (r: Coord) {
    if c.runID != id then c
    else
      var s := c.state.(stoppedAt := Some(now));
      Coord(
        if c.state.status.Stopping? || error.None? then s.(status := Stopped, error := [])
        else s.(status := Failed, error := Compact(error.value.text)),
        sample, None, None, c.runID)
  }

  // ----- results

  datatype Results = Results(
    status: Status, options: StartOptions, startedAt: Option<int>, stoppedAt: Option<int>, error: Text, stats: Stats)

  /** normalizeResultsSample: a normal stop does not show the cancellation it caused. */
  function Normalized(s: State, sample: Sample): (r: Sample) {
    if s.status.Stopped? && s.error == [] && Compact(sample.latestError) == CANCELED_TEXT
    then sample.(latestError := [])
    else sample
  }

  /** Results, given the live sample of the run when one is held. */
  function ResultsOf(c: Coord, live: Sample): (r: Results) {
    var sample := if c.run.Some? then live else c.sample;
    Results(c.state.status, c.state.options, c.state.startedAt, c.state.stoppedAt, c.state.error,
            StatsOf(Normalized(c.state, sample)))
  }

  // ----- the object

  datatype AlterError = RunNotRunning | Refused(error: OptionError)

  class Coordinator {
    var state: State
    var sample: Sample
    var run: ActiveRun?
    var cancel: Option<nat>
    var runID: nat
    /** the runs whose context has been cancelled */
    var cancelledRuns: set<nat>

    ghost function View(): (c: Coord)
      reads this
    {
      Coord(state, sample, if run == null then None else Some(run.handle), cancel, runID)
    }

    /** New. */
    constructor ()
      ensures View() == INITIAL && cancelledRuns == {}
    {
      state := State(Idle, ZERO_OPTIONS, None, None, []);
      sample := ZERO_SAMPLE;
      run, cancel, runID, cancelledRuns := null, None, 0, {};
    }

    /** Start up to the call of the runner; a rejected start changes nothing. */
    method StartBegin(options: StartOptions) returns (accepted: bool, id: nat)
      modifies this`state, this`sample, this`run, this`cancel, this`runID
      ensures accepted <==> !ActiveStatus(old(state).status)
      ensures !accepted ==> View() == old(View())
      ensures accepted ==> View() == BeginStart(old(View()), options) && id == runID
    {
      if state.status.Starting? || state.status.Running? || state.status.Stopping? {
        return false, runID;
      }
      runID := runID + 1;
      cancel := Some(runID);
      run := null;
      state := State(Starting, options, None, None, []);
      sample := ZERO_SAMPLE;
      return true, runID;
    }

    /** The rest of Start when the runner handed over a run; says whether to wait for it. */
    method StartCommit(id: nat, handedOver: ActiveRun, now: int) returns (wait: bool)
      requires handedOver.handle == id
      modifies this`state, this`run
      ensures View() == CommitStart(old(View()), id, now)
      ensures wait <==> runID == id
    {
      if runID != id {
        return false;
      }
      run := handedOver;
      if state.startedAt.None? {
        state := state.(startedAt := Some(now));
      }
      if state.status.Starting? {
        state := state.(status := Running, error := []);
      }
      return true;
    }

    /** finishStartFailure. */
    method StartFailed(id: nat, options: StartOptions, error: Failure, now: int)
      modifies this`state, this`sample, this`run, this`cancel
      ensures View() == FailStart(old(View()), id, options, error, now)
    {
      if runID != id {
        return;
      }
      run := null;
      cancel := None;
      if state.status.Stopping? && error.canceled {
        state := state.(status := Stopped, error := [], options := options, stoppedAt := Some(now));
        sample := ZERO_SAMPLE;
        return;
      }
      state := State(Failed, options, None, Some(now), Compact(error.text));
      sample := ZERO_SAMPLE;
    }

    /** Stop. */
    method Stop()
      modifies this`state, this`cancelledRuns
      ensures View() == StopRun(old(View()))
      ensures cancelledRuns == old(cancelledRuns)
                               + if StopCancels(old(View())).Some? then {StopCancels(old(View())).value} else {}
    {
      match state.status {
        case Starting | Running =>
          state := state.(status := Stopping);
          if cancel.Some? {
            cancelledRuns := cancelledRuns + {cancel.value};
          }
        case _ =>
      }
    }

    /**
      Alter: refused unless running; otherwise refused exactly when the options are, and then
      nothing changes.  The run never refuses what the options accept.
     */
    method Alter(a: AlterOptions) returns (error: Option<AlterError>)
      requires run != null ==> run.Valid()
      modifies this`state, if run == null then {} else {run, run.stats}
      ensures run == old(run) && (run != null ==> run.Valid())
      ensures error == if !old(state).status.Running? || run == null then Some(RunNotRunning)
                       else match ApplyAlter(old(state).options, a)
                            case Err(e) => Some(Refused(e))
                            case Ok(_) => None
      ensures error.Some? ==> View() == old(View()) && (run != null ==> run.View() == old(run.View()))
      ensures error.None? ==>
                && ApplyAlter(old(state).options, a).Ok?
                && View() == old(View()).(state := old(state).(options := ApplyAlter(old(state).options, a).value))
                && run != null && Altered(old(run.View()), a, run.View())
    {
      if !state.status.Running? || run == null {
        return Some(RunNotRunning);
      }
      var updated := ApplyAlter(state.options, a);
      if updated.Err? {
        return Some(Refused(updated.error));
      }
      var refused := run.Alter(a);
      assert refused.None?; // the code's branch for a refusal by the run is never taken
      state := state.(options := updated.value);
      return None;
    }

    /** waitForRun after Wait returned; the run samples by its own clock. */
    method RunFinished(id: nat, finished: ActiveRun, error: Option<Failure>, sampledAt: int, now: int)
      requires finished.Valid()
      modifies this`state, this`sample, this`run, this`cancel
      ensures View() == FinishRun(old(View()), id, error, SampleOf(finished.View().stats, sampledAt), now)
    {
      if runID != id {
        return;
      }
      sample := finished.Sample(sampledAt);
      run := null;
      cancel := None;
      state := state.(stoppedAt := Some(now));
      if state.status.Stopping? {
        state := state.(status := Stopped, error := []);
      } else if error.None? {
        state := state.(status := Stopped, error := []);
      } else {
        state := state.(status := Failed, error := Compact(error.value.text));
      }
    }

    /** Results: the live sample of the run held, or the sample kept. */
    method GetResults(now: int) returns (results: Results)
      requires run != null ==> run.Valid()
      ensures run == null ==> results == ResultsOf(View(), sample)
      ensures run != null ==> results == ResultsOf(View(), SampleOf(run.View().stats, now))
    {
      var s := sample;
      if run != null {
        s := run.Sample(now);
      }
      results := Results(state.status, state.options, state.startedAt, state.stoppedAt, state.error,
                         StatsOf(Normalized(state, s)));
    }
  }

  /** Normalizing compacts the error again, which changes nothing: it hides exactly the bare cancellation. */
  lemma {:induction false} NormalizedExactly(s: State, sample: Sample)
    requires IsCompact(sample.latestError)
    ensures Normalized(s, sample) != sample
       <==> s.status.Stopped? && s.error == [] && sample.latestError == CANCELED_TEXT
  {
    CompactExactly(sample.latestError);
  }
}
