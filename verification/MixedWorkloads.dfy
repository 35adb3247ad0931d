/**
  The read, write and mixed workloads of internal/benchrunner/workload_read_write.go, seen
  through their atomic counters: which family and which operation each iteration runs.
 */
module MixedWorkloads {

  datatype Kind = PointRead | RangeRead | HistoryInsert | AccountUpdate

  function ReadKind(iteration: nat): (k: Kind) { if iteration % 2 == 1 then PointRead else RangeRead }

  function WriteKind(iteration: nat): (k: Kind) { if iteration % 2 == 1 then HistoryInsert else AccountUpdate }

  predicate IsRead(readPercent: int, iteration: nat) { iteration % 100 < readPercent }

  /** The reads among the outer iterations 1 .. n. */
  function Reads(readPercent: int, n: nat): (count: nat)
    ensures count <= n
  {
    if n == 0 then 0 else Reads(readPercent, n - 1) + if IsRead(readPercent, n) then 1 else 0
  }

  // ----- the counters as objects

  class ReadWorkload {
    var counter: nat
    /** the point and the range reads so far */
    ghost var points: nat
    ghost var ranges: nat

    /** Point and range reads alternate, a point read first. */
    ghost predicate Valid()
      reads this
    {
      Halves(points, ranges, counter)
    }

    constructor ()
      ensures Valid() && counter == 0
    {
      counter, points, ranges := 0, 0, 0;
    }

    method RunOnce() returns (kind: Kind)
      requires Valid()
      modifies this
      ensures Valid() && counter == old(counter) + 1 && kind == ReadKind(counter)
      ensures points == old(points) + (if kind.PointRead? then 1 else 0)
      ensures ranges == old(ranges) + (if kind.RangeRead? then 1 else 0)
    {
      HalvesStep(points, ranges, counter);
      counter := counter + 1;
      if counter % 2 == 1 {
        points := points + 1;
        return PointRead;
      }
      ranges := ranges + 1;
      return RangeRead;
    }
  }

  class WriteWorkload {
    var counter: nat
    /** the inserts and the updates so far */
    ghost var inserts: nat
    ghost var updates: nat

    /** Inserts and updates alternate, an insert first. */
    ghost predicate Valid()
      reads this
    {
      Halves(inserts, updates, counter)
    }

    constructor ()
      ensures Valid() && counter == 0
    {
      counter, inserts, updates := 0, 0, 0;
    }

    method RunOnce() returns (kind: Kind)
      requires Valid()
      modifies this
      ensures Valid() && counter == old(counter) + 1 && kind == WriteKind(counter)
      ensures inserts == old(inserts) + (if kind.HistoryInsert? then 1 else 0)
      ensures updates == old(updates) + (if kind.AccountUpdate? then 1 else 0)
    {
      HalvesStep(inserts, updates, counter);
      counter := counter + 1;
      if counter % 2 == 1 {
        inserts := inserts + 1;
        return HistoryInsert;
      }
      updates := updates + 1;
      return AccountUpdate;
    }
  }

  class MixedWorkload {
    const readPercent: int
    const read: ReadWorkload
    const write: WriteWorkload
    var counter: nat

    /** The nested counters split the outer one exactly as the read percentage prescribes. */
    ghost predicate Valid()
      reads this, read, write
    {
      && read.Valid() && write.Valid()
      && read.counter == Reads(readPercent, counter) && write.counter == counter - Reads(readPercent, counter)
    }

    constructor (readPercent: int)
      ensures Valid() && counter == 0 && this.readPercent == readPercent && fresh(read) && fresh(write)
    {
      this.readPercent := readPercent;
      read := new ReadWorkload();
      write := new WriteWorkload();
      counter := 0;
    }

    method RunOnce() returns (kind: Kind)
      requires Valid()
      modifies this, read, write
      ensures Valid() && counter == old(counter) + 1
      ensures kind == if IsRead(readPercent, counter) then ReadKind(Reads(readPercent, counter))
                      else WriteKind(counter - Reads(readPercent, counter))
    {
      counter := counter + 1;
      if counter % 100 < readPercent {
        kind := read.RunOnce();
      } else {
        kind := write.RunOnce();
      }
    }
  }

  // ----- the mix is exact

  /** The reads among the first r iterations of a block of one hundred. */
  function Part(readPercent: int, r: nat): (count: nat)
    requires 0 <= readPercent <= 100
  {
    if readPercent == 0 then 0 else if r < readPercent then r else readPercent - 1
  }

  lemma {:induction false} MulLe(a: int, b: int, c: int)
    requires a <= b && 0 <= c
    ensures a * c <= b * c
  {
  }

  lemma {:induction false} MulNext(a: int, b: int)
    ensures a * (b + 1) == a * b + a
  {
  }

  lemma {:induction false} HundredsStep(n: nat)
    requires n > 0
    ensures n % 100 == 0 ==> (n - 1) / 100 + 1 == n / 100 && (n - 1) % 100 == 99
    ensures n % 100 != 0 ==> (n - 1) / 100 == n / 100 && (n - 1) % 100 == n % 100 - 1
  {
  }

  lemma {:induction false} ReadsClosedForm(readPercent: int, n: nat)
    requires 0 <= readPercent <= 100
    ensures Reads(readPercent, n) == readPercent * (n / 100) + Part(readPercent, n % 100)
  {
    if n > 0 {
      ReadsClosedForm(readPercent, n - 1);
      HundredsStep(n);
      if n % 100 == 0 {
        MulNext(readPercent, (n - 1) / 100);
      }
    }
  }

  /** Any one hundred consecutive iterations contain exactly readPercent reads. */
  lemma {:induction false} AnyHundredExact(readPercent: int, m: nat)
    requires 0 <= readPercent <= 100
    ensures Reads(readPercent, m + 100) - Reads(readPercent, m) == readPercent
  {
    ReadsClosedForm(readPercent, m);
    ReadsClosedForm(readPercent, m + 100);
    assert (m + 100) / 100 == m / 100 + 1 && (m + 100) % 100 == m % 100;
    MulNext(readPercent, m / 100);
  }

  /** How far one hundred times the reads of a prefix is from readPercent times its length. */
  function Drift(readPercent: int, n: nat): (d: int) {
    100 * Reads(readPercent, n) - readPercent * n
  }

  /** The drift within a block of one hundred. */
  function BlockDrift(p: int, r: nat): (d: int)
    requires 0 <= p <= 100
  {
    100 * Part(p, r) - p * r
  }

  lemma {:induction false} DriftInBlock(p: int, n: nat)
    requires 0 <= p <= 100
    ensures Drift(p, n) == BlockDrift(p, n % 100)
  {
    ReadsClosedForm(p, n);
    SplitProduct(p, n / 100, n % 100, n);
  }

  lemma {:induction false} SplitProduct(p: int, q: int, r: int, n: int)
    requires n == 100 * q + r
    ensures p * n == 100 * (p * q) + p * r
  {
    assert p * n == p * (100 * q + r);
  }

  lemma {:induction false} RangeProduct(p: int)
    ensures (p - 1) * (100 - p) == 101 * p - p * p - 100
    ensures p * (100 - p) == 100 * p - p * p
  {
  }

  lemma {:induction false} BlockDriftBounds(p: int, r: nat)
    requires 1 <= p <= 100 && r < 100
    ensures -(100 - p) <= BlockDrift(p, r) <= (p - 1) * (100 - p)
  {
    if r < p {
      assert 100 * r - p * r == r * (100 - p);
      MulLe(0, r, 100 - p);
      MulLe(r, p - 1, 100 - p);
    } else {
      MulLe(p, r, p);
      MulLe(r, 99, p);
      RangeProduct(p);
    }
  }

  /**
    Every prefix keeps the mix: the drift lies between -(100 - p) and (p - 1)(100 - p), and is
    zero without reads.
   */
  lemma {:induction false} PrefixDrift(p: int, n: nat)
    requires 0 <= p <= 100
    ensures p >= 1 ==> -(100 - p) <= Drift(p, n) <= (p - 1) * (100 - p)
    ensures p == 0 ==> Drift(p, n) == 0
  {
    DriftInBlock(p, n);
    if p >= 1 {
      BlockDriftBounds(p, n % 100);
    }
  }

  lemma {:induction false} SymmetricBound(p: int, d: int)
    requires 1 <= p <= 100 && -(100 - p) <= d <= (p - 1) * (100 - p)
    ensures -(p * (100 - p)) <= d <= p * (100 - p)
  {
    MulLe(1, p, 100 - p);
    MulLe(p - 1, p, 100 - p);
  }

  /** The symmetric form: the drift of every prefix is at most p(100 - p) either way. */
  lemma {:induction false} PrefixDriftSymmetric(p: int, n: nat)
    requires 0 <= p <= 100
    ensures -(p * (100 - p)) <= Drift(p, n) <= p * (100 - p)
  {
    PrefixDrift(p, n);
    if p >= 1 {
      SymmetricBound(p, Drift(p, n));
    }
  }

  /** The upper end of the drift is reached, before the first write. */
  lemma {:induction false} DriftReachesTop(p: int)
    requires 1 <= p <= 100
    ensures Drift(p, p - 1) == (p - 1) * (100 - p)
  {
    DriftInBlock(p, p - 1);
    TopProduct(p, p - 1);
  }

  lemma {:induction false} TopProduct(p: int, r: int)
    ensures 100 * r - p * r == r * (100 - p)
  {
  }

  /** And the lower end, one iteration before a block ends. */
  lemma {:induction false} DriftReachesBottom(p: int)
    requires 1 <= p <= 100
    ensures Drift(p, 99) == -(100 - p)
  {
    DriftInBlock(p, 99);
  }

  // ----- workers interleave: an outer counter step and the inner one it leads to are separate

  datatype Mix = Mix(
    outer: nat,
    read: nat,
    write: nat,
    /** calls that have taken an outer iteration and not yet an inner one */
    pendingReads: nat,
    pendingWrites: nat,
    points: nat,
    ranges: nat,
    inserts: nat,
    updates: nat)

  const START: Mix := Mix(0, 0, 0, 0, 0, 0, 0, 0, 0)

  datatype MixStep = TakeOuter | TakeRead | TakeWrite

  ghost predicate Enabled(m: Mix, step: MixStep) {
    match step
    case TakeOuter => true
    case TakeRead => m.pendingReads > 0
    case TakeWrite => m.pendingWrites > 0
  }

  function Next(readPercent: int, m: Mix, step: MixStep): (r: Mix)
    requires Enabled(m, step)
  {
    match step
    case TakeOuter =>
      var m := m.(outer := m.outer + 1);
      if IsRead(readPercent, m.outer) then m.(pendingReads := m.pendingReads + 1)
      else m.(pendingWrites := m.pendingWrites + 1)
    case TakeRead =>
      var m := m.(read := m.read + 1, pendingReads := m.pendingReads - 1);
      if ReadKind(m.read).PointRead? then m.(points := m.points + 1) else m.(ranges := m.ranges + 1)
    case TakeWrite =>
      var m := m.(write := m.write + 1, pendingWrites := m.pendingWrites - 1);
      if WriteKind(m.write).HistoryInsert? then m.(inserts := m.inserts + 1) else m.(updates := m.updates + 1)
  }

  ghost predicate Balanced(readPercent: int, m: Mix) {
    && m.read + m.pendingReads == Reads(readPercent, m.outer)
    && m.write + m.pendingWrites == m.outer - Reads(readPercent, m.outer)
    && Halves(m.points, m.ranges, m.read)
    && Halves(m.inserts, m.updates, m.write)
  }

  /** Alternating from odd to even: the odd ones first, and never more than one ahead. */
  ghost predicate Halves(odd: nat, even: nat, n: nat) {
    odd + even == n && (if n % 2 == 0 then odd == even else odd == even + 1)
  }

  ghost predicate IsRun(readPercent: int, run: seq<Mix>) {
    && run != [] && run[0] == START
    && forall i: nat :: i < |run| - 1 ==> MovesAt(readPercent, run, i)
  }

  ghost predicate MovesAt(readPercent: int, run: seq<Mix>, i: nat)
    requires i < |run| - 1
  {
    exists step :: Enabled(run[i], step) && run[i + 1] == Next(readPercent, run[i], step)
  }

  lemma {:induction false} BalancedStep(readPercent: int, m: Mix, step: MixStep)
    requires Balanced(readPercent, m) && Enabled(m, step)
    ensures Balanced(readPercent, Next(readPercent, m, step))
  {
    match step
    case TakeOuter =>
    case TakeRead => HalvesStep(m.points, m.ranges, m.read);
    case TakeWrite => HalvesStep(m.inserts, m.updates, m.write);
  }

  lemma {:induction false} HalvesStep(odd: nat, even: nat, n: nat)
    requires Halves(odd, even, n)
    ensures if (n + 1) % 2 == 1 then Halves(odd + 1, even, n + 1) else Halves(odd, even + 1, n + 1)
  {
  }

  lemma {:induction false} BalancedOverRuns(readPercent: int, run: seq<Mix>, i: nat)
    requires IsRun(readPercent, run) && i < |run|
    ensures Balanced(readPercent, run[i])
  {
    if i > 0 {
      BalancedOverRuns(readPercent, run, i - 1);
      assert MovesAt(readPercent, run, i - 1);
      var step :| Enabled(run[i - 1], step) && run[i - 1 + 1] == Next(readPercent, run[i - 1], step);
      BalancedStep(readPercent, run[i - 1], step);
    }
  }

  /**
    In every interleaving of any number of workers the nested counters and the calls in flight
    add up to the outer counter, the reads begun are those the percentage prescribes, and point
    and range reads, inserts and updates, differ by at most one.
   */
  lemma {:induction false} MixOverRuns(readPercent: int, run: seq<Mix>, i: nat)
    requires IsRun(readPercent, run) && i < |run|
    ensures var m := run[i];
            && m.read + m.pendingReads == Reads(readPercent, m.outer)
            && m.read + m.pendingReads + m.write + m.pendingWrites == m.outer
            && m.points + m.ranges == m.read && 0 <= m.points - m.ranges <= 1
            && m.inserts + m.updates == m.write && 0 <= m.inserts - m.updates <= 1
  {
    BalancedOverRuns(readPercent, run, i);
  }
}
