/**
  The transaction profile: workload_transaction.go and runTransactionalOperation of
  workload_sql.go in internal/benchrunner, over an abstract store with atomic commit.

  A transaction's writes become visible together when it commits and not at all otherwise.
  `UPDATE ... SET balance = balance + v` adds to whatever the balance is when it takes effect,
  and does nothing when no row has the id.
 */
module Ledger {
  import opened Wrappers
  import opened Options
  import opened Workload
  import opened Sums

  /** `note` is the n of the row's note, "tx-n". */
  datatype HistoryRow = HistoryRow(account: int, teller: int, branch: int, amount: int, note: nat)

  datatype Store = Store(accounts: map<int, int>, tellers: map<int, int>, history: seq<HistoryRow>)

  datatype WriteOp =
    | AddToAccount(id: int, value: int)
    | AddToTeller(id: int, value: int)
    | InsertHistory(row: HistoryRow)

  predicate UpTo(id: int, n: int) { 1 <= id <= n }

  function ZeroBalances(n: int): (balances: map<int, int>) { map id | 1 <= id <= n && UpTo(id, n) :: 0 }

  /** The freshly seeded store: every id of the scale, all balances zero, no history. */
  function Seeded(m: ScaleModel): (s: Store) {
    Store(ZeroBalances(m.accounts), ZeroBalances(m.tellers), [])
  }

  function Add(balances: map<int, int>, id: int, value: int): (r: map<int, int>) {
    if id in balances then balances[id := balances[id] + value] else balances
  }

  function Apply(s: Store, w: WriteOp): (r: Store) {
    match w
    case AddToAccount(id, value) => s.(accounts := Add(s.accounts, id, value))
    case AddToTeller(id, value) => s.(tellers := Add(s.tellers, id, value))
    case InsertHistory(row) => s.(history := s.history + [row])
  }

  function ApplyAll(s: Store, ws: seq<WriteOp>): (r: Store) {
    if ws == [] then s else Apply(ApplyAll(s, ws[..|ws| - 1]), ws[|ws| - 1])
  }

  predicate KnownMix(mix: TransactionMix) { mix.Balanced? || mix.ReadHeavy? || mix.WriteHeavy? }

  function RowOf(iteration: nat, m: ScaleModel): (row: HistoryRow)
    requires iteration >= 1 && m.accounts >= 1 && m.branches >= 1
  {
    var branch := BranchID(iteration, m);
    HistoryRow(AccountID(iteration, m), TellerID(iteration, m, branch), branch, Amount(iteration), iteration)
  }

  /** The writes of one transaction, in order. */
  function Script(mix: TransactionMix, iteration: nat, m: ScaleModel): (ws: seq<WriteOp>)
    requires iteration >= 1 && m.accounts >= 1 && m.branches >= 1
  {
    var row := RowOf(iteration, m);
    [AddToAccount(row.account, row.amount)]
    + (if mix.WriteHeavy? then [AddToTeller(row.teller, row.amount)] else [])
    + [InsertHistory(row)]
  }

  // ----- one operation, against a database that may refuse any request

  /** A commit that reports an error may have been applied all the same. */
  datatype CommitAnswer = Committed | AppliedButFailed | NotApplied

  /** What the database answers: whether BEGIN and each statement succeed, and the outcome of COMMIT. */
  datatype Answers = Answers(begin: bool, statement: nat -> bool, commit: CommitAnswer)

  datatype TxError = BeginFailed | PointReadFailed | RangeReadFailed | MixNotImplemented
                   | AccountUpdateFailed | TellerUpdateFailed | HistoryInsertFailed | CommitFailed

  /** Every statement the mix issues succeeds, and the mix is one the code implements. */
  predicate StatementsSucceed(mix: TransactionMix, answers: Answers) {
    && KnownMix(mix)
    && answers.statement(0) && answers.statement(2) && answers.statement(4)
    && (mix.ReadHeavy? ==> answers.statement(1))
    && (mix.WriteHeavy? ==> answers.statement(3))
  }

  /** The statements a mix issues: point read, range read, account update, teller update, history insert. */
  predicate Issues(mix: TransactionMix, i: nat) {
    match i
    case 0 => true
    case 1 => mix.ReadHeavy?
    case 2 => KnownMix(mix)
    case 3 => mix.WriteHeavy?
    case 4 => KnownMix(mix)
    case _ => false
  }

  function FailureOf(i: nat): (error: TxError)
    requires i < 5
  {
    [PointReadFailed, RangeReadFailed, AccountUpdateFailed, TellerUpdateFailed, HistoryInsertFailed][i]
  }

  /** Statement i is the first of those issued that fails. */
  predicate FailsFirst(mix: TransactionMix, answers: Answers, i: nat) {
    Issues(mix, i) && !answers.statement(i) && forall j: nat :: j < i && Issues(mix, j) ==> answers.statement(j)
  }

  /**
    What iteration n does to a store, in plain arithmetic: it adds n mod 97 + 1 to one account,
    under write-heavy to one teller too, and appends one row.
   */
  ghost predicate Transfers(mix: TransactionMix, n: nat, m: ScaleModel, before: Store, after: Store)
    requires n >= 1 && m.accounts >= 1 && m.branches >= 1
  {
    var account, branch, amount := (n - 1) % m.accounts + 1, (n - 1) % m.branches + 1, n % 97 + 1;
    var slot := (n - 1) % m.branches * 10 + (n - 1) % 10 + 1;
    var teller := if slot > m.tellers then m.tellers else slot;
    && Adds(before.accounts, after.accounts, account, amount)
    && Adds(before.tellers, after.tellers, teller, if mix.WriteHeavy? then amount else 0)
    && after.history == before.history + [HistoryRow(account, teller, branch, amount, n)]
  }

  /** One balance, if there is one, grows by the amount, and all others stay. */
  ghost predicate Adds(before: map<int, int>, after: map<int, int>, id: int, amount: int) {
    && after.Keys == before.Keys
    && forall i :: i in before ==> after[i] == before[i] + if i == id then amount else 0
  }

  class Database {
    var accounts: map<int, int>
    var tellers: map<int, int>
    var history: seq<HistoryRow>
    /** the writes of the open transaction */
    var pending: seq<WriteOp>

    ghost function View(): (s: Store)
      reads this
    {
      Store(accounts, tellers, history)
    }

    constructor (m: ScaleModel)
      ensures View() == Seeded(m) && pending == []
    {
      accounts := ZeroBalances(m.accounts);
      tellers := ZeroBalances(m.tellers);
      history := [];
      pending := [];
    }

    method Rollback()
      modifies this`pending
      ensures pending == []
    {
      pending := [];
    }

    method Exec(w: WriteOp)
      modifies this`pending
      ensures pending == old(pending) + [w]
    {
      pending := pending + [w];
    }

    /** Commit: the pending writes take effect in order. */
    method Commit()
      modifies this
      ensures View() == ApplyAll(old(View()), old(pending)) && pending == []
    {
      var after := ApplyAll(Store(accounts, tellers, history), pending);
      accounts, tellers, history := after.accounts, after.tellers, after.history;
      pending := [];
    }
  }

  class TransactionWorkload {
    const m: ScaleModel
    const mix: TransactionMix
    var counter: nat

    constructor (m: ScaleModel, mix: TransactionMix)
      ensures counter == 0 && this.m == m && this.mix == mix
    {
      this.m := m;
      this.mix := mix;
      counter := 0;
    }

    /** runTransaction: the statements of one iteration, stopping at the first that fails. */
    method RunTransaction(db: Database, answers: Answers, iteration: nat) returns (error: Option<TxError>)
      requires iteration >= 1 && m.accounts >= 1 && m.branches >= 1
      modifies db`pending
      ensures error.None? <==> StatementsSucceed(mix, answers)
      ensures error == Some(MixNotImplemented) <==> !KnownMix(mix) && answers.statement(0)
      ensures forall i: nat :: i < 5 ==> (error == Some(FailureOf(i)) <==> FailsFirst(mix, answers, i))
      ensures error.None? ==> db.pending == old(db.pending) + Script(mix, iteration, m)
    {
      var account := AccountID(iteration, m);
      var branch := BranchID(iteration, m);
      var teller := TellerID(iteration, m, branch);
      var value := Amount(iteration);

      if !answers.statement(0) {
        return Some(PointReadFailed);
      }
      match mix {
        case ReadHeavy =>
          if !answers.statement(1) {
            return Some(RangeReadFailed);
          }
        case Balanced =>
        case WriteHeavy =>
        case _ =>
          return Some(MixNotImplemented);
      }
      if !answers.statement(2) {
        return Some(AccountUpdateFailed);
      }
      db.Exec(AddToAccount(account, value));
      if mix.WriteHeavy? {
        if !answers.statement(3) {
          return Some(TellerUpdateFailed);
        }
        db.Exec(AddToTeller(teller, value));
      }
      if !answers.statement(4) {
        return Some(HistoryInsertFailed);
      }
      db.Exec(InsertHistory(HistoryRow(account, teller, branch, value, iteration)));
      return None;
    }

    /**
      RunOnce through runTransactionalOperation: all the writes of the iteration, or none; all if
      it succeeds, none if it fails before its commit.  Every call takes a new iteration.
     */
    method RunOnce(db: Database, answers: Answers) returns (error: Option<TxError>)
      requires m.accounts >= 1 && m.branches >= 1
      requires db.pending == []
      modifies this, db
      ensures counter == old(counter) + 1 && db.pending == []
      ensures error.None? <==> answers.begin && StatementsSucceed(mix, answers) && answers.commit.Committed?
      ensures if answers.begin && StatementsSucceed(mix, answers) && !answers.commit.NotApplied?
              then Transfers(mix, counter, m, old(db.View()), db.View()) else db.View() == old(db.View())
    {
      counter := counter + 1;
      if !answers.begin {
        return Some(BeginFailed);
      }
      error := RunTransaction(db, answers, counter);
      if error.Some? {
        db.Rollback();
        return;
      }
      if answers.commit.NotApplied? {
        db.Rollback();
        return Some(CommitFailed);
      }
      assert [] + Script(mix, counter, m) == Script(mix, counter, m);
      ScriptTransfers(mix, counter, m, db.View());
      db.Commit();
      if answers.commit.AppliedButFailed? {
        return Some(CommitFailed);
      }
    }
  }

  // ----- any interleaving of transactions

  /** An open transaction: its iteration, and how many of its writes it has executed. */
  datatype Tx = Tx(iteration: nat, done: nat)

  datatype World = World(store: Store, counter: nat, open: map<nat, Tx>)

  datatype Action =
    | Begin(tx: nat)
    | BeginFails
    | ExecNext(tx: nat)
    | CommitTx(tx: nat)
    | AbortTx(tx: nat)

  ghost predicate Enabled(mix: TransactionMix, m: ScaleModel, w: World, a: Action)
    requires m.accounts >= 1 && m.branches >= 1
  {
    match a
    case Begin(tx) => tx !in w.open
    case BeginFails => true
    case ExecNext(tx) =>
      tx in w.open && w.open[tx].iteration >= 1 && w.open[tx].done < |Script(mix, w.open[tx].iteration, m)|
    case CommitTx(tx) =>
      tx in w.open && w.open[tx].iteration >= 1 && w.open[tx].done == |Script(mix, w.open[tx].iteration, m)|
    case AbortTx(tx) => tx in w.open
  }

  ghost function Next(mix: TransactionMix, m: ScaleModel, w: World, a: Action): (r: World)
    requires m.accounts >= 1 && m.branches >= 1
    requires Enabled(mix, m, w, a)
  {
    match a
    case Begin(tx) => w.(counter := w.counter + 1, open := w.open[tx := Tx(w.counter + 1, 0)])
    case BeginFails => w.(counter := w.counter + 1)
    case ExecNext(tx) => w.(open := w.open[tx := w.open[tx].(done := w.open[tx].done + 1)])
    case CommitTx(tx) =>
      // a commit that reports an error has either happened or not: CommitTx or AbortTx
      w.(store := ApplyAll(w.store, Script(mix, w.open[tx].iteration, m)), open := w.open - {tx})
    case AbortTx(tx) => w.(open := w.open - {tx})
  }

  ghost predicate IsRun(mix: TransactionMix, m: ScaleModel, run: seq<World>, actions: seq<Action>)
    requires m.accounts >= 1 && m.branches >= 1
  {
    && |run| == |actions| + 1 && run[0] == World(Seeded(m), 0, map[])
    && forall i: nat :: i < |actions| ==> StepAt(mix, m, run, actions, i)
  }

  ghost predicate StepAt(mix: TransactionMix, m: ScaleModel, run: seq<World>, actions: seq<Action>, i: nat)
    requires m.accounts >= 1 && m.branches >= 1 && i < |actions| < |run|
  {
    Enabled(mix, m, run[i], actions[i]) && run[i + 1] == Next(mix, m, run[i], actions[i])
  }

  function ForAccount(id: int): (f: HistoryRow -> int) {
    (row: HistoryRow) => if row.account == id then row.amount else 0
  }

  function ForTeller(id: int): (f: HistoryRow -> int) {
    (row: HistoryRow) => if row.teller == id then row.amount else 0
  }

  /** The row's ids are seeded, its account and teller belong to its branch, and it moves money. */
  ghost predicate GoodRow(row: HistoryRow, m: ScaleModel)
    requires m.branches >= 1
  {
    && SeededAccount(row.account, m) && SeededTeller(row.teller, m) && SeededBranch(row.branch, m)
    && AccountBranch(row.account, m) == row.branch
    && TellerBranch(row.teller) == row.branch
    && 1 <= row.amount <= 97
  }

  /** Each balance is the sum of the history amounts of its id. */
  ghost predicate AccountsBalance(s: Store) {
    forall id :: id in s.accounts ==> s.accounts[id] == SumBy(ForAccount(id), s.history)
  }

  ghost predicate TellersBalance(s: Store) {
    forall id :: id in s.tellers ==> s.tellers[id] == SumBy(ForTeller(id), s.history)
  }

  ghost predicate GoodStore(mix: TransactionMix, m: ScaleModel, s: Store)
    requires m.branches >= 1
  {
    && s.accounts.Keys == Seeded(m).accounts.Keys
    && s.tellers.Keys == Seeded(m).tellers.Keys
    && (forall i :: 0 <= i < |s.history| ==> GoodRow(s.history[i], m))
    && AccountsBalance(s)
    && (mix.WriteHeavy? ==> TellersBalance(s))
    && (!mix.WriteHeavy? ==> s.tellers == Seeded(m).tellers)
  }

  /** What one committed transaction does to the store, in one step. */
  lemma {:induction false} ScriptEffect(mix: TransactionMix, iteration: nat, m: ScaleModel, s: Store)
    requires iteration >= 1 && m.accounts >= 1 && m.branches >= 1
    ensures var row := RowOf(iteration, m);
            ApplyAll(s, Script(mix, iteration, m))
            == Store(Add(s.accounts, row.account, row.amount),
                     if mix.WriteHeavy? then Add(s.tellers, row.teller, row.amount) else s.tellers,
                     s.history + [row])
  {
    var row := RowOf(iteration, m);
    var a, t, h := AddToAccount(row.account, row.amount), AddToTeller(row.teller, row.amount), InsertHistory(row);
    ApplyAppend(s, [], a);
    assert [] + [a] == [a];
    if mix.WriteHeavy? {
      ApplyAppend(s, [a], t);
      ApplyAppend(s, [a] + [t], h);
      assert Script(mix, iteration, m) == [a] + [t] + [h];
    } else {
      ApplyAppend(s, [a], h);
      assert Script(mix, iteration, m) == [a] + [h];
    }
  }

  /** The writes of one transaction do exactly what the arithmetic says. */
  lemma {:induction false} ScriptTransfers(mix: TransactionMix, n: nat, m: ScaleModel, s: Store)
    requires n >= 1 && m.accounts >= 1 && m.branches >= 1
    ensures Transfers(mix, n, m, s, ApplyAll(s, Script(mix, n, m)))
  {
    ScriptEffect(mix, n, m, s);
  }

  lemma {:induction false} ApplyAppend(s: Store, ws: seq<WriteOp>, w: WriteOp)
    ensures ApplyAll(s, ws + [w]) == Apply(ApplyAll(s, ws), w)
  {
  }

  lemma {:induction false} RowIsGood(iteration: nat, scale: int)
    requires iteration >= 1 && scale >= 1
    ensures GoodRow(RowOf(iteration, ResolveScale(scale)), ResolveScale(scale))
  {
    AccountAgrees(iteration, scale);
    TellerAgrees(iteration, scale);
  }

  lemma {:induction false} AccountsStay(s: Store, row: HistoryRow)
    requires AccountsBalance(s) && row.account in s.accounts
    ensures AccountsBalance(Store(Add(s.accounts, row.account, row.amount), s.tellers, s.history + [row]))
  {
  }

  lemma {:induction false} TellersStay(s: Store, row: HistoryRow)
    requires TellersBalance(s) && row.teller in s.tellers
    ensures TellersBalance(Store(s.accounts, Add(s.tellers, row.teller, row.amount), s.history + [row]))
  {
  }

  /** A committed transaction keeps the ledger: its account, and under write-heavy its teller, exist. */
  lemma {:induction false} CommitKeepsLedger(mix: TransactionMix, scale: int, iteration: nat, s: Store)
    requires scale >= 1 && iteration >= 1
    requires GoodStore(mix, ResolveScale(scale), s)
    ensures GoodStore(mix, ResolveScale(scale), ApplyAll(s, Script(mix, iteration, ResolveScale(scale))))
  {
    var m := ResolveScale(scale);
    var row := RowOf(iteration, m);
    ScriptEffect(mix, iteration, m, s);
    RowIsGood(iteration, scale);
    assert row.account in Seeded(m).accounts && row.teller in Seeded(m).tellers;
    AccountsStay(s, row);
    if mix.WriteHeavy? {
      TellersStay(s, row);
    }
  }

  /**
    The ledger, over every interleaving of committed and aborted transactions from a freshly
    seeded store: each account balance is the sum of the history amounts of that account, and
    under write-heavy the same holds for each teller; otherwise tellers are never touched.
    Every history row refers to seeded ids of one branch.
   */
  lemma {:induction false} LedgerOverRuns(mix: TransactionMix, scale: int, run: seq<World>, actions: seq<Action>, i: nat)
    requires scale >= 1 && IsRun(mix, ResolveScale(scale), run, actions) && i < |run|
    ensures GoodStore(mix, ResolveScale(scale), run[i].store)
  {
    var m := ResolveScale(scale);
    if i > 0 {
      LedgerOverRuns(mix, scale, run, actions, i - 1);
      assert StepAt(mix, m, run, actions, i - 1);
      var a := actions[i - 1];
      if a.CommitTx? {
        CommitKeepsLedger(mix, scale, run[i - 1].open[a.tx].iteration, run[i - 1].store);
      }
    }
  }

  /** Positive amounts make the sum over a teller's rows positive. */
  lemma {:induction false} TellerSumPositive(rows: seq<HistoryRow>, k: nat)
    requires k < |rows| && forall i :: 0 <= i < |rows| ==> rows[i].amount >= 1
    ensures SumBy(ForTeller(rows[k].teller), rows) >= 1
  {
    var f := ForTeller(rows[k].teller);
    SumConcat(f, rows[..k + 1], rows[k + 1..]);
    assert rows == rows[..k + 1] + rows[k + 1..];
    assert rows[..k + 1] == rows[..k] + [rows[k]];
    TellerSumNonNegative(rows[k].teller, rows[..k]);
    TellerSumNonNegative(rows[k].teller, rows[k + 1..]);
  }

  lemma {:induction false} TellerSumNonNegative(id: int, rows: seq<HistoryRow>)
    requires forall i :: 0 <= i < |rows| ==> rows[i].amount >= 1
    ensures SumBy(ForTeller(id), rows) >= 0
  {
    if rows != [] {
      TellerSumNonNegative(id, rows[..|rows| - 1]);
    }
  }

  /**
    The teller ledger holds exactly under write-heavy: with any other mix it fails in every
    reachable state in which some transaction has committed.
   */
  lemma {:induction false} TellerLedgerExactly(mix: TransactionMix, scale: int, run: seq<World>, actions: seq<Action>, i: nat)
    requires scale >= 1 && IsRun(mix, ResolveScale(scale), run, actions) && i < |run|
    ensures TellersBalance(run[i].store) <==> mix.WriteHeavy? || run[i].store.history == []
  {
    var m, s := ResolveScale(scale), run[i].store;
    LedgerOverRuns(mix, scale, run, actions, i);
    if !mix.WriteHeavy? && s.history != [] {
      var id := s.history[0].teller;
      assert GoodRow(s.history[0], m);
      TellerSumPositive(s.history, 0);
      assert id in s.tellers && s.tellers[id] == 0;
    }
  }

  /** The worlds of one committed transaction without a teller update. */
  function OneCommit(mix: TransactionMix, m: ScaleModel): (run: seq<World>)
    requires m.accounts >= 1 && m.branches >= 1
  {
    var seeded := Seeded(m);
    [World(seeded, 0, map[]),
     World(seeded, 1, map[0 := Tx(1, 0)]),
     World(seeded, 1, map[0 := Tx(1, 1)]),
     World(seeded, 1, map[0 := Tx(1, 2)]),
     World(ApplyAll(seeded, Script(mix, 1, m)), 1, map[])]
  }

  const COMMIT_ONE: seq<Action> := [Begin(0), ExecNext(0), ExecNext(0), CommitTx(0)]

  /** A run that breaks the teller ledger, at any scale and with any mix but write-heavy: one commit. */
  lemma {:induction false} TellerLedgerBreaks(mix: TransactionMix, scale: int)
    requires scale >= 1 && !mix.WriteHeavy?
    ensures IsRun(mix, ResolveScale(scale), OneCommit(mix, ResolveScale(scale)), COMMIT_ONE)
    ensures !TellersBalance(OneCommit(mix, ResolveScale(scale))[4].store)
  {
    var m := ResolveScale(scale);
    var run := OneCommit(mix, m);
    assert |Script(mix, 1, m)| == 2;
    assert forall i: nat :: i < 4 ==> StepAt(mix, m, run, COMMIT_ONE, i);
    TellerLedgerExactly(mix, scale, run, COMMIT_ONE, 4);
    ScriptEffect(mix, 1, m, Seeded(m));
  }

  // ----- which rows there are

  /** The iterations committed by the first n actions, in order. */
  ghost function Commits(run: seq<World>, actions: seq<Action>, n: nat): (iterations: seq<nat>)
    requires n <= |actions| < |run|
  {
    if n == 0 then []
    else
      var a, w := actions[n - 1], run[n - 1];
      Commits(run, actions, n - 1) + if a.CommitTx? && a.tx in w.open then [w.open[a.tx].iteration] else []
  }

  /** The row of iteration n at a scale, in plain arithmetic. */
  ghost predicate IsRowOf(row: HistoryRow, n: nat, scale: int)
    requires scale >= 1
  {
    && row.account == (n - 1) % (scale * 100_000) + 1
    && row.teller == (n - 1) % scale * 10 + (n - 1) % 10 + 1
    && row.branch == (n - 1) % scale + 1
    && row.amount == n % 97 + 1
    && row.note == n
  }

  lemma {:induction false} RowIsRowOf(n: nat, scale: int)
    requires n >= 1 && scale >= 1
    ensures IsRowOf(RowOf(n, ResolveScale(scale)), n, scale)
  {
    TellerAgrees(n, scale);
  }

  /** The history is the committed iterations, in the order of their commits, one row each. */
  lemma {:induction false} HistoryIsCommits(mix: TransactionMix, scale: int, run: seq<World>, actions: seq<Action>, n: nat)
    requires scale >= 1 && IsRun(mix, ResolveScale(scale), run, actions) && n < |run|
    ensures |run[n].store.history| == |Commits(run, actions, n)|
    ensures forall k :: 0 <= k < |Commits(run, actions, n)| ==>
              IsRowOf(run[n].store.history[k], Commits(run, actions, n)[k], scale)
  {
    if n > 0 {
      var m, w, a := ResolveScale(scale), run[n - 1], actions[n - 1];
      HistoryIsCommits(mix, scale, run, actions, n - 1);
      assert StepAt(mix, m, run, actions, n - 1);
      if a.CommitTx? {
        ScriptEffect(mix, w.open[a.tx].iteration, m, w.store);
        RowIsRowOf(w.open[a.tx].iteration, scale);
      }
    }
  }

  /** An iteration is in use by at most one open transaction, and by none that has committed. */
  ghost predicate Distinct(w: World, commits: seq<nat>) {
    && (forall i, j :: 0 <= i < j < |commits| ==> commits[i] != commits[j])
    && (forall i :: 0 <= i < |commits| ==> 1 <= commits[i] <= w.counter)
    && (forall t :: t in w.open ==> 1 <= w.open[t].iteration <= w.counter && w.open[t].iteration !in commits)
    && (forall t, u :: t in w.open && u in w.open && t != u ==> w.open[t].iteration != w.open[u].iteration)
  }

  lemma {:induction false} DistinctStep(mix: TransactionMix, m: ScaleModel, w: World, a: Action, commits: seq<nat>)
    requires m.accounts >= 1 && m.branches >= 1 && Enabled(mix, m, w, a) && Distinct(w, commits)
    ensures Distinct(Next(mix, m, w, a), commits + if a.CommitTx? then [w.open[a.tx].iteration] else [])
  {
    assert commits + [] == commits;
  }

  lemma {:induction false} CommitsDistinct(mix: TransactionMix, scale: int, run: seq<World>, actions: seq<Action>, n: nat)
    requires scale >= 1 && IsRun(mix, ResolveScale(scale), run, actions) && n < |run|
    ensures Distinct(run[n], Commits(run, actions, n))
  {
    if n > 0 {
      CommitsDistinct(mix, scale, run, actions, n - 1);
      assert StepAt(mix, ResolveScale(scale), run, actions, n - 1);
      DistinctStep(mix, ResolveScale(scale), run[n - 1], actions[n - 1], Commits(run, actions, n - 1));
    }
  }

  /**
    Of every issued iteration the history holds exactly one row if it has committed, and none
    otherwise; HistoryIsCommits says what is in the row.
   */
  lemma {:induction false} RowsExactly(
    mix: TransactionMix, scale: int, run: seq<World>, actions: seq<Action>, n: nat, iteration: nat)
    requires scale >= 1 && IsRun(mix, ResolveScale(scale), run, actions) && n < |run|
    ensures var history := run[n].store.history;
            && (iteration in Commits(run, actions, n) <==> exists row :: row in history && row.note == iteration)
            && (forall j, k :: 0 <= j < k < |history| ==> history[j].note != history[k].note)
  {
    HistoryIsCommits(mix, scale, run, actions, n);
    CommitsDistinct(mix, scale, run, actions, n);
    var history, commits := run[n].store.history, Commits(run, actions, n);
    if iteration in commits {
      var k :| 0 <= k < |commits| && commits[k] == iteration;
      assert history[k] in history;
    }
  }

  /** An account is named in the history exactly when one of its iterations has committed. */
  lemma {:induction false} AccountTouchedExactly(
    mix: TransactionMix, scale: int, run: seq<World>, actions: seq<Action>, n: nat, id: int)
    requires scale >= 1 && IsRun(mix, ResolveScale(scale), run, actions) && n < |run|
    ensures (exists k :: 0 <= k < |run[n].store.history| && run[n].store.history[k].account == id)
       <==> exists c :: c in Commits(run, actions, n) && (c - 1) % (scale * 100_000) + 1 == id
  {
    HistoryIsCommits(mix, scale, run, actions, n);
    var history, commits := run[n].store.history, Commits(run, actions, n);
    if k :| 0 <= k < |history| && history[k].account == id {
      assert commits[k] in commits;
    }
    if c :| c in commits && (c - 1) % (scale * 100_000) + 1 == id {
      var k :| 0 <= k < |commits| && commits[k] == c;
      assert IsRowOf(history[k], c, scale);
    }
  }

  // ----- conservation of money

  /** The balances of ids 1 .. n together. */
  function TotalBalance(balances: map<int, int>, n: nat): (total: int) {
    if n == 0 then 0 else TotalBalance(balances, n - 1) + if n in balances then balances[n] else 0
  }

  function AmountOf(): (f: HistoryRow -> int) { (row: HistoryRow) => row.amount }

  lemma {:induction false} TotalAfterAdd(balances: map<int, int>, id: int, value: int, n: nat)
    requires id in balances && 1 <= id
    ensures TotalBalance(Add(balances, id, value), n) == TotalBalance(balances, n) + if id <= n then value else 0
  {
    if n > 0 {
      TotalAfterAdd(balances, id, value, n - 1);
    }
  }

  lemma {:induction false} TotalZero(balances: map<int, int>, n: nat)
    requires forall id :: id in balances ==> balances[id] == 0
    ensures TotalBalance(balances, n) == 0
  {
    if n > 0 {
      TotalZero(balances, n - 1);
    }
  }

  /** In every interleaving the account balances together are the history amounts together. */
  lemma {:induction false} MoneyOverRuns(mix: TransactionMix, scale: int, run: seq<World>, actions: seq<Action>, i: nat)
    requires scale >= 1 && IsRun(mix, ResolveScale(scale), run, actions) && i < |run|
    ensures TotalBalance(run[i].store.accounts, scale * 100000) == SumBy(AmountOf(), run[i].store.history)
  {
    var m := ResolveScale(scale);
    if i == 0 {
      TotalZero(Seeded(m).accounts, scale * 100000);
    } else {
      MoneyOverRuns(mix, scale, run, actions, i - 1);
      assert StepAt(mix, m, run, actions, i - 1);
      var w, a := run[i - 1], actions[i - 1];
      if a.CommitTx? {
        LedgerOverRuns(mix, scale, run, actions, i - 1);
        CommitMovesMoney(mix, scale, w.open[a.tx].iteration, w.store);
      }
    }
  }

  lemma {:induction false} CommitMovesMoney(mix: TransactionMix, scale: int, iteration: nat, s: Store)
    requires scale >= 1 && iteration >= 1 && GoodStore(mix, ResolveScale(scale), s)
    requires TotalBalance(s.accounts, scale * 100000) == SumBy(AmountOf(), s.history)
    ensures var r := ApplyAll(s, Script(mix, iteration, ResolveScale(scale)));
            TotalBalance(r.accounts, scale * 100000) == SumBy(AmountOf(), r.history)
  {
    var m := ResolveScale(scale);
    var row := RowOf(iteration, m);
    ScriptEffect(mix, iteration, m, s);
    RowIsGood(iteration, scale);
    assert row.account in Seeded(m).accounts;
    TotalAfterAdd(s.accounts, row.account, row.amount, scale * 100000);
  }
}
