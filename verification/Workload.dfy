/**
  The dataset and the ids the workloads touch: internal/benchmark/scale.go,
  internal/benchrunner/workload.go, the range bounds of workload_read_write.go and
  workload_transaction.go, and the seeding formulas of internal/benchrunner/runner.go.

  Integers are unbounded here; the code computes the same as long as scale * 100000 fits int64
  and the iteration counter does not wrap.
 */
module Workload {

  datatype ScaleModel = ScaleModel(branches: int, tellers: int, accounts: int, historyRows: int)

  function ResolveScale(scale: int): (m: ScaleModel) {
    ScaleModel(scale, scale * 10, scale * 100000, 0)
  }

  // ----- the ids of an iteration (counters start at 1)

  function AccountID(iteration: nat, m: ScaleModel): (id: int)
    requires iteration >= 1 && m.accounts >= 1
  {
    (iteration - 1) % m.accounts + 1
  }

  function BranchID(iteration: nat, m: ScaleModel): (id: int)
    requires iteration >= 1 && m.branches >= 1
  {
    (iteration - 1) % m.branches + 1
  }

  function TellerID(iteration: nat, m: ScaleModel, branch: int): (id: int)
    requires iteration >= 1
  {
    var offset := (iteration - 1) % 10;
    var base := (branch - 1) * 10 + 1;
    if base + offset > m.tellers then m.tellers else base + offset
  }

  function Amount(iteration: nat): (v: int)
    ensures 1 <= v <= 97
  {
    iteration % 97 + 1
  }

  /** The first and last id of the range a read of the iteration asks for. */
  function RangeStart(iteration: nat, m: ScaleModel): (id: int)
    requires iteration >= 1 && m.branches >= 1
  {
    BranchID(iteration, m)
  }

  /** runRangeRead, with its clamp to the last account. */
  function RangeEnd(iteration: nat, m: ScaleModel): (id: int)
    requires iteration >= 1 && m.branches >= 1
  {
    var end := RangeStart(iteration, m) + m.branches * 9;
    if end > m.accounts then m.accounts else end
  }

  // ----- the seeded tables: ids 1 .. n, each with its branch

  function AccountBranch(id: int, m: ScaleModel): (branch: int)
    requires id >= 1 && m.branches >= 1
  {
    (id - 1) % m.branches + 1
  }

  function TellerBranch(id: int): (branch: int)
    requires id >= 1
  {
    (id - 1) / 10 + 1
  }

  predicate SeededAccount(id: int, m: ScaleModel) { 1 <= id <= m.accounts }

  predicate SeededTeller(id: int, m: ScaleModel) { 1 <= id <= m.tellers }

  predicate SeededBranch(id: int, m: ScaleModel) { 1 <= id <= m.branches }

  /** The rows of accounts with the branch and an id between lo and hi, ordered by id. */
  function RangeRows(m: ScaleModel, branch: int, lo: int, hi: int): (ids: seq<int>)
    requires m.branches >= 1
    decreases hi - lo
  {
    if hi < lo then []
    else
      RangeRows(m, branch, lo, hi - 1)
      + if SeededAccount(hi, m) && AccountBranch(hi, m) == branch then [hi] else []
  }

  // ----- arithmetic

  /** Quotient and remainder are unique. */
  lemma {:induction false} DivModUnique(n: int, d: int, q: int, r: int)
    requires d > 0 && n == q * d + r && 0 <= r < d
    ensures n / d == q && n % d == r
  {
    var q', r' := n / d, n % d;
    var x := q' - q;
    assert x * d == r - r';
    assert x >= 1 ==> x * d >= d;
    assert x <= -1 ==> x * d <= -d;
  }

  /** A remainder by a multiple of s keeps the remainder by s. */
  lemma {:induction false} ModOfMod(n: int, k: int, s: int)
    requires k > 0 && s > 0
    ensures k * s > 0 && (n % (k * s)) % s == n % s
  {
    assert k * s >= s;
    var d := k * s;
    var q, r := n / d, n % d;
    var p, t := r / s, r % s;
    assert n == q * (k * s) + (p * s + t);
    assert q * (k * s) == (q * k) * s;
    assert n == (q * k + p) * s + t by {
      assert (q * k + p) * s == (q * k) * s + p * s;
    }
    DivModUnique(n, s, q * k + p, t);
  }

  // ----- the generated ids agree with the seeding formulas

  /** The account of every iteration is seeded and belongs to the iteration's branch. */
  lemma {:induction false} AccountAgrees(iteration: nat, scale: int)
    requires iteration >= 1 && scale >= 1
    ensures var m := ResolveScale(scale);
            var account, branch := AccountID(iteration, m), BranchID(iteration, m);
            && SeededBranch(branch, m)
            && SeededAccount(account, m)
            && AccountBranch(account, m) == branch
  {
    ModOfMod(iteration - 1, 100000, scale);
    assert 100000 * scale == scale * 100000;
  }

  /** The teller of every iteration is seeded and belongs to the iteration's branch; no clamping. */
  lemma {:induction false} TellerAgrees(iteration: nat, scale: int)
    requires iteration >= 1 && scale >= 1
    ensures var m := ResolveScale(scale);
            var branch := BranchID(iteration, m);
            var teller := TellerID(iteration, m, branch);
            && teller == (branch - 1) * 10 + 1 + (iteration - 1) % 10
            && SeededTeller(teller, m)
            && TellerBranch(teller) == branch
  {
    var m := ResolveScale(scale);
    var branch, offset := BranchID(iteration, m), (iteration - 1) % 10;
    assert (branch - 1) * 10 + 1 + offset <= m.tellers;
    DivModUnique((branch - 1) * 10 + offset, 10, branch - 1, offset);
  }

  /** Every seeded account is some iteration's account. */
  lemma {:induction false} EveryAccountReached(id: nat, scale: int)
    requires scale >= 1 && SeededAccount(id, ResolveScale(scale))
    ensures AccountID(id, ResolveScale(scale)) == id
  {
    DivModUnique(id - 1, scale * 100000, 0, id - 1);
  }

  // ----- range reads

  /** Ids strictly between two consecutive ones of a branch belong to other branches. */
  lemma {:induction false} GapRows(m: ScaleModel, branch: int, lo: int, k: nat, j: nat)
    requires m.branches >= 1 && SeededBranch(branch, m) && lo == branch
    requires j < m.branches
    ensures RangeRows(m, branch, lo, branch + k * m.branches + j) == RangeRows(m, branch, lo, branch + k * m.branches)
  {
    if j > 0 {
      var s := m.branches;
      var id := branch + k * s + j;
      GapRows(m, branch, lo, k, j - 1);
      assert id - 1 == k * s + (branch - 1 + j);
      if branch - 1 + j < s {
        DivModUnique(id - 1, s, k, branch - 1 + j);
      } else {
        assert (k + 1) * s == k * s + s;
        DivModUnique(id - 1, s, k + 1, branch - 1 + j - s);
      }
      assert RangeRows(m, branch, lo, id - 1) + [] == RangeRows(m, branch, lo, id - 1);
    }
  }

  /** `n` ids from `first`, `step` apart. */
  function Progression(first: int, step: int, n: nat): (ids: seq<int>)
    ensures |ids| == n
  {
    if n == 0 then [] else Progression(first, step, n - 1) + [first + (n - 1) * step]
  }

  /** Every stride from a branch's own id lands on an account of that branch. */
  lemma {:induction false} StrideBranch(m: ScaleModel, branch: int, k: nat)
    requires m.branches >= 1 && SeededBranch(branch, m)
    ensures branch + k * m.branches >= branch
    ensures AccountBranch(branch + k * m.branches, m) == branch
  {
    assert k * m.branches >= 0;
    DivModUnique(branch + k * m.branches - 1, m.branches, k, branch - 1);
  }

  lemma {:induction false} PreviousStride(k: int, s: int)
    ensures (k - 1) * s + (s - 1) == k * s - 1
  {
    assert (k - 1) * s == k * s - s;
  }

  lemma {:induction false} LastRow(m: ScaleModel, branch: int, lo: int, hi: int)
    requires m.branches >= 1 && 1 <= lo <= hi <= m.accounts && AccountBranch(hi, m) == branch
    ensures RangeRows(m, branch, lo, hi) == RangeRows(m, branch, lo, hi - 1) + [hi]
  {
  }

  /** One more stride selects one more row. */
  lemma {:induction false} OneMoreRow(m: ScaleModel, branch: int, k: nat)
    requires m.branches >= 1 && SeededBranch(branch, m) && k > 0
    requires branch + k * m.branches <= m.accounts
    ensures RangeRows(m, branch, branch, branch + k * m.branches)
         == RangeRows(m, branch, branch, branch + (k - 1) * m.branches) + [branch + k * m.branches]
  {
    StrideBranch(m, branch, k);
    GapRows(m, branch, branch, k - 1, m.branches - 1);
    PreviousStride(k, m.branches);
    LastRow(m, branch, branch, branch + k * m.branches);
  }

  /** From a branch's own id, k strides of the number of branches select k + 1 rows. */
  lemma {:induction false} RangeRowsAre(m: ScaleModel, branch: int, k: nat)
    requires m.branches >= 1 && SeededBranch(branch, m)
    requires branch + k * m.branches <= m.accounts
    ensures RangeRows(m, branch, branch, branch + k * m.branches) == Progression(branch, m.branches, k + 1)
  {
    if k == 0 {
      StrideBranch(m, branch, 0);
      assert RangeRows(m, branch, branch, branch - 1) == [];
      assert Progression(branch, m.branches, 0) == [];
    } else {
      assert (k - 1) * m.branches == k * m.branches - m.branches;
      RangeRowsAre(m, branch, k - 1);
      OneMoreRow(m, branch, k);
    }
  }

  /**
    Every range read selects exactly ten seeded accounts: the branch's own id and the next nine
    of that branch; the clamp at the last account never fires.
   */
  lemma {:induction false} RangeReadSelectsTen(iteration: nat, scale: int)
    requires iteration >= 1 && scale >= 1
    ensures var m := ResolveScale(scale);
            var branch := BranchID(iteration, m);
            && RangeEnd(iteration, m) == branch + 9 * scale
            && RangeRows(m, branch, RangeStart(iteration, m), RangeEnd(iteration, m)) == Progression(branch, scale, 10)
  {
    var m := ResolveScale(scale);
    RangeRowsAre(m, BranchID(iteration, m), 9);
  }

  /** The read-heavy transaction's range, from the branch id over four strides, selects five. */
  lemma {:induction false} TransactionRangeSelectsFive(iteration: nat, scale: int)
    requires iteration >= 1 && scale >= 1
    ensures var m := ResolveScale(scale);
            var branch := BranchID(iteration, m);
            RangeRows(m, branch, branch, branch + m.branches * 4) == Progression(branch, scale, 5)
  {
    var m := ResolveScale(scale);
    RangeRowsAre(m, BranchID(iteration, m), 4);
  }
}
