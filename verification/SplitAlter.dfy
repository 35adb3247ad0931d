/**
  Alter of internal/benchrunner/runtime.go takes three locks one after the other: the gate's, the
  statistics' and the run's.  Whatever the pool does in between, the outcome is that of the whole
  alter done at once at the end, but possibly for the ticker, on which no step depends.
 */
module SplitAlter {
  import opened Wrappers
  import opened Options
  import opened WorkerPool
  import opened WorkerLoops

  /** The pool with another ticker and other configured clients. */
  function Tuned(p: Pool, ticker: Option<int>, clients: int): (q: Pool) {
    Configure(p, clients).(ticker := ticker)
  }

  /** Steps neither read nor write the configured clients, and only PaceCloses writes the ticker. */
  lemma {:induction false} TunedStep(p: Pool, s: Step, ticker: Option<int>, clients: int)
    ensures Enabled(Tuned(p, ticker, clients), s, true) == Enabled(p, s, true)
    ensures Enabled(p, s, true) ==>
              Next(Tuned(p, ticker, clients), s)
              == Tuned(Next(p, s), if s.PaceCloses? then None else ticker, clients)
  {
  }

  /** Tuning first and playing the steps then is playing them first, but for the ticker. */
  lemma {:induction false} TunedPlay(p: Pool, steps: seq<Step>, ticker: Option<int>, clients: int, q: Pool)
    returns (m: Pool)
    requires Play(Tuned(p, ticker, clients), steps) == Some(q)
    ensures Play(p, steps) == Some(m) && q == Tuned(m, q.ticker, clients)
    decreases |steps|
  {
    if steps == [] {
      m := p;
    } else {
      var s := steps[0];
      TunedStep(p, s, ticker, clients);
      m := TunedPlay(Next(p, s), steps[1..], if s.PaceCloses? then None else ticker, clients, q);
    }
  }

  lemma {:induction false} TunedSized(p: Pool, ticker: Option<int>, target: nat, q: Pool, updated: Option<int>)
    requires Sized(Tuned(p, ticker, target), target, q)
    ensures Resized(p.(ticker := updated), target, q.(ticker := updated))
  {
  }

  /** The steps in between are steps of the pool without the alter. */
  lemma {:induction false} SplitSteps(
    p: Pool, targetTPS: Option<int>, first: seq<Step>, p1: Pool, clients: nat, second: seq<Step>, p2: Pool)
    returns (m: Pool)
    requires targetTPS.Some? ==> targetTPS.value >= 1
    requires Play(Repaced(p, targetTPS), first) == Some(p1)
    requires Play(Configure(p1, clients), second) == Some(p2)
    ensures Play(p, first + second) == Some(m) && p2 == Tuned(m, p2.ticker, clients)
  {
    var ticker := Repaced(p, targetTPS).ticker;
    assert Repaced(p, targetTPS) == Tuned(p, ticker, p.stats.configuredClients);
    var m1 := TunedPlay(p, first, ticker, p.stats.configuredClients, p1);
    assert Configure(p1, clients) == Tuned(m1, p1.ticker, clients);
    m := TunedPlay(m1, second, p1.ticker, clients, p2);
    PlayConcat(p, first, m1, second);
  }

  lemma {:induction false} AtomicEnd(m: Pool, a: AlterOptions, ticker: Option<int>, q: Pool) returns (atomic: Pool)
    requires ValidateAlter(a).None? && a.clients.Some?
    requires Sized(Tuned(m, ticker, a.clients.value), a.clients.value, q)
    ensures Altered(m, a, atomic) && q == atomic.(ticker := q.ticker)
  {
    var updated := Repaced(m, a.targetTPS).ticker;
    atomic := q.(ticker := updated);
    TunedSized(m, ticker, a.clients.value, q, updated);
    assert Repaced(m, a.targetTPS) == m.(ticker := updated);
  }

  /**
    The three parts of an alter with the steps `first` after the gate and the steps `second`
    after the statistics: `m` is the pool after all the steps without the alter, and the whole
    alter takes it to the same outcome, but for the ticker.
   */
  lemma {:induction false} SplitAlterIsAtomic(
    p: Pool, a: AlterOptions, first: seq<Step>, p1: Pool, second: seq<Step>, p2: Pool, q: Pool)
    returns (m: Pool, atomic: Pool)
    requires ValidateAlter(a).None? && a.clients.Some?
    requires Play(Repaced(p, a.targetTPS), first) == Some(p1)
    requires Play(Configure(p1, a.clients.value), second) == Some(p2)
    requires Sized(p2, a.clients.value, q)
    ensures Play(p, first + second) == Some(m)
    ensures Altered(m, a, atomic) && q == atomic.(ticker := q.ticker)
  {
    m := SplitSteps(p, a.targetTPS, first, p1, a.clients.value, second, p2);
    atomic := AtomicEnd(m, a, p2.ticker, q);
  }
}
