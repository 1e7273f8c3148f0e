/**
 What the version column buys: for each wallet the committed transfers form one sequence of consecutive
 versions, none inside another's window, and the balance left behind by a debit is exact.
 */
module Windows {
  import opened Wrappers
  import opened Tables
  import opened TransferProtocol
  import opened History
  import opened Invariant

  /** When a committed transfer read the version of `x`. */
  function ReadAt(c: Commit, x: WalletId): nat
  {
    if c.job.from == x then c.fromAt else c.toAt
  }

  function VersionSeen(c: Commit, x: WalletId): nat
  {
    if c.job.from == x then c.fromVersion else c.toVersion
  }

  lemma LogFits(cfg: Config, r: Run, i: nat, j: nat)
    requires IsRun(cfg, r) && i < |r.states| && j < |r.states[i].history|
    ensures Fits(cfg, r.states[0].db, r.states[i].history[..j], r.states[i].history[j])
  {
    hide WorkerOk, Fits;
    RunOk(cfg, r, i);
  }

  /**
   If two committed transfers share a wallet, the later one read its version after the earlier one's
   commit, and saw exactly one version per transfer that had touched the wallet until then.
   */
  lemma DisjointWindows(cfg: Config, r: Run, i: nat, a: nat, b: nat, x: WalletId)
    requires IsRun(cfg, r) && i < |r.states| && a < b < |r.states[i].history|
    requires Touches(r.states[i].history[a], x) && Touches(r.states[i].history[b], x)
    ensures var h := r.states[i].history;
            && a < ReadAt(h[b], x) <= b
            && VersionSeen(h[b], x) == Ver(r.states[0].db.version, x) + TouchCount(h[..b], x)
            && VersionSeen(h[a], x) < VersionSeen(h[b], x)
  {
    hide LedgerOf, Balance;
    var h := r.states[i].history;
    var seed := r.states[0].db;
    LogFits(cfg, r, i, b);
    LogFits(cfg, r, i, a);
    var g := h[..b];
    SameVersionUntouched(seed.version, g, ReadAt(h[b], x), x);
    assert g[a] == h[a];
    forall j | 0 <= j < b
      ensures g[j].job.from != g[j].job.to
    {
      LogFits(cfg, r, i, j);
    }
    VersionCounts(seed.version, g, x);
    assert h[..a] == g[..a];
    forall j | 0 <= j < a
      ensures h[..a][j].job.from != h[..a][j].job.to
    {
      LogFits(cfg, r, i, j);
    }
    VersionCounts(seed.version, h[..a], x);
    TouchCountStrict(g, a, x);
  }

  lemma {:induction false} TouchCountStrict(g: seq<Commit>, a: nat, x: WalletId)
    requires a < |g| && Touches(g[a], x)
    ensures TouchCount(g[..a], x) < TouchCount(g, x)
  {
    var m := |g| - 1;
    if a == m {
      assert g[..a] == g[..m];
    } else {
      assert g[..m][..a] == g[..a];
      TouchCountStrict(g[..m], a, x);
    }
  }

  /** The committed version of a wallet counts the transfers that touched it. */
  lemma VersionIsTouchCount(cfg: Config, r: Run, i: nat, x: WalletId)
    requires IsRun(cfg, r) && i < |r.states|
    ensures Ver(r.states[i].db.version, x) == Ver(r.states[0].db.version, x) + TouchCount(r.states[i].history, x)
  {
    hide LedgerOf, Balance, WorkerOk;
    var h := r.states[i].history;
    RunOk(cfg, r, i);
    forall j | 0 <= j < |h|
      ensures h[j].job.from != h[j].job.to
    {
      LogFits(cfg, r, i, j);
    }
    VersionCounts(r.states[0].db.version, h, x);
  }

  // ---------- overdraft ----------

  /** What was committed between a transfer's balance read and its version read of the same wallet. */
  function Gap(h: seq<Commit>, c: Commit): seq<Commit>
    requires c.balanceAt <= c.fromAt <= |h|
  {
    h[c.balanceAt..c.fromAt]
  }

  function BalanceAfter(seed: Db, h: seq<Commit>, x: WalletId): real
  {
    Balance(LedgerOf(seed.ledger, h), x)
  }

  /**
   Right after a commit, the debited wallet holds the balance that was read, minus the amount, plus
   whatever else was committed between the balance read and the version read: nothing after that.
   */
  lemma BalanceAfterDebit(cfg: Config, r: Run, i: nat, j: nat)
    requires IsRun(cfg, r) && i < |r.states| && j < |r.states[i].history|
    ensures var h := r.states[i].history;
            var c := h[j];
            && c.balanceAt <= c.fromAt <= j
            && BalanceAfter(r.states[0].db, h[..j + 1], c.job.from)
               == c.balance - c.job.amount + Net(Gap(h, c), c.job.from)
  {
    hide Balance, LedgerOf, VersionOf, Touches, Owns, Net, IsRun;
    var h := r.states[i].history;
    var seed := r.states[0].db;
    var c := h[j];
    var x := c.job.from;
    LogFits(cfg, r, i, j);
    var g := h[..j];
    SameVersionUntouched(seed.version, g, c.fromAt, x);
    BalanceSplit(seed.ledger, g, c.balanceAt, x);
    assert g[c.balanceAt..] == Gap(h, c) + g[c.fromAt..];
    NetConcat(Gap(h, c), g[c.fromAt..], x);
    NetUntouched(g[c.fromAt..], x);
    assert h[..j + 1] == g + [c];
    Append(seed, g, c);
    BalancePair(LedgerOf(seed.ledger, g), DebitRow(c.job), CreditRow(c.job, c.credit), x);
  }

  /** The overdraft bound: a debit never leaves less than minus what the gap debited. */
  lemma OverdraftBound(cfg: Config, r: Run, i: nat, j: nat)
    requires IsRun(cfg, r) && i < |r.states| && j < |r.states[i].history|
    ensures var h := r.states[i].history;
            var c := h[j];
            && c.balanceAt <= c.fromAt <= j
            && BalanceAfter(r.states[0].db, h[..j + 1], c.job.from) >= -DebitsOf(Gap(h, c), c.job.from)
  {
    hide Balance, LedgerOf, VersionOf, Net, DebitsOf;
    var h := r.states[i].history;
    var c := h[j];
    BalanceAfterDebit(cfg, r, i, j);
    LogFits(cfg, r, i, j);
    forall k | 0 <= k < |Gap(h, c)|
      ensures Gap(h, c)[k].credit >= 0.0
    {
      LogFits(cfg, r, i, c.balanceAt + k);
    }
    NetAtLeastDebits(Gap(h, c), c.job.from);
  }

  /**
   The check the code lacks: a debit overdraws the wallet exactly when the balance at the version read,
   not the one read before it, is below the amount.
   */
  lemma OverdrawnIff(cfg: Config, r: Run, i: nat, j: nat)
    requires IsRun(cfg, r) && i < |r.states| && j < |r.states[i].history|
    ensures var h := r.states[i].history;
            var c := h[j];
            && c.fromAt <= j
            && (BalanceAfter(r.states[0].db, h[..j + 1], c.job.from) < 0.0
                <==> BalanceAfter(r.states[0].db, h[..c.fromAt], c.job.from) < c.job.amount)
  {
    hide Balance, LedgerOf, VersionOf, Net, IsRun;
    var h := r.states[i].history;
    var seed := r.states[0].db;
    var c := h[j];
    LogFits(cfg, r, i, j);
    BalanceAfterDebit(cfg, r, i, j);
    var g := h[..c.fromAt];
    BalanceSplit(seed.ledger, g, c.balanceAt, c.job.from);
    assert g[..c.balanceAt] == h[..j][..c.balanceAt] && g[c.balanceAt..] == Gap(h, c);
  }

  /** No commit between the balance read and the version read of a debit of `x` debits `x`. */
  predicate GapsFree(h: seq<Commit>, x: WalletId)
  {
    forall j, k :: 0 <= j < |h| && h[j].job.from == x && h[j].balanceAt <= k < h[j].fromAt && k < |h| ==>
                     h[k].job.from != x
  }

  lemma {:induction false} NoDebits(h: seq<Commit>, x: WalletId)
    requires forall k :: 0 <= k < |h| ==> h[k].job.from != x
    ensures DebitsOf(h, x) == 0.0
  {
    if h != [] {
      NoDebits(h[..|h| - 1], x);
    }
  }

  lemma {:induction false} FreeGapsBalance(cfg: Config, r: Run, i: nat, n: nat, x: WalletId)
    requires IsRun(cfg, r) && i < |r.states| && n <= |r.states[i].history|
    requires Balance(r.states[0].db.ledger, x) >= 0.0 && GapsFree(r.states[i].history, x)
    ensures BalanceAfter(r.states[0].db, r.states[i].history[..n], x) >= 0.0
  {
    hide IsRun, Balance, Net, DebitsOf, VersionOf;
    var h := r.states[i].history;
    var seed := r.states[0].db;
    if n > 0 {
      var c := h[n - 1];
      FreeGapsBalance(cfg, r, i, n - 1, x);
      LogFits(cfg, r, i, n - 1);
      if c.job.from == x {
        NoDebits(Gap(h, c), x);
        OverdraftBound(cfg, r, i, n - 1);
      } else {
        assert h[..n] == h[..n - 1] + [c];
        Append(seed, h[..n - 1], c);
        BalancePair(LedgerOf(seed.ledger, h[..n - 1]), DebitRow(c.job), CreditRow(c.job, c.credit), x);
      }
    }
  }

  /** A wallet none of whose debits has another in its gap is never overdrawn, whatever else overlaps. */
  lemma FreeGapsNeverOverdraw(cfg: Config, r: Run, i: nat, x: WalletId)
    requires IsRun(cfg, r) && i < |r.states|
    requires Balance(r.states[0].db.ledger, x) >= 0.0 && GapsFree(r.states[i].history, x)
    ensures Balance(r.states[i].db.ledger, x) >= 0.0
  {
    hide WorkerOk, Balance, Fits, LogOk, GapsFree;
    RunOk(cfg, r, i);
    FreeGapsBalance(cfg, r, i, |r.states[i].history|, x);
    assert r.states[i].history[..|r.states[i].history|] == r.states[i].history;
  }

  // ---------- serial runs ----------

  predicate OneOpen(s: State)
  {
    forall v, w | 0 <= v < |s.workers| && 0 <= w < |s.workers| ::
      InTx(s.workers[v].pc) && InTx(s.workers[w].pc) ==> v == w
  }

  /** At most one transaction is open at any moment. */
  predicate Serial(r: Run)
  {
    forall i :: 0 <= i < |r.states| ==> OneOpen(r.states[i])
  }

  /** What a worker has read is still current. */
  predicate Fresh(h: seq<Commit>, x: Worker)
  {
    Rank(x) >= 2 ==> x.balanceAt == |h|
  }

  predicate FreshLog(h: seq<Commit>)
  {
    forall j :: 0 <= j < |h| ==> h[j].balanceAt == j
  }

  predicate SerialInv(s: State)
  {
    FreshLog(s.history) && forall w :: 0 <= w < |s.workers| ==> Fresh(s.history, s.workers[w])
  }

  lemma LocalFresh(cfg: Config, s: State, w: nat, rate: real)
    requires w < |s.workers| && Local(cfg, s, w, rate).Some? && Fresh(s.history, s.workers[w])
    requires FrameOk(cfg, s.workers[w])
    ensures Fresh(s.history, Local(cfg, s, w, rate).value)
  {
    hide Balance, FindTransfer, HasKey, PairCollides, Exchanged, KeyFree, WalletFree, PairFree, LoopOk;
  }

  /** A commit outdates what others have read, but nobody else has read anything. */
  lemma SerialCommit(cfg: Config, seed: Db, s: State, w: nat, pc: Pc)
    requires Inv(cfg, seed, s) && SerialInv(s) && OneOpen(s)
    requires w < |s.workers| && s.workers[w].pc.CommitNew? && (pc.Threw? || pc.SendEmail?)
    ensures SerialInv(CommitTransfer(s, w, pc))
  {
    hide KnowsOk, BumpsOk, AnswerOk, LoopOk, LogOk, TablesOk;
    assert WorkerOk(cfg, seed, s.history, s.workers[w]);
  }

  lemma SerialStatement(cfg: Config, seed: Db, s: State, w: nat, rate: real)
    requires Inv(cfg, seed, s) && SerialInv(s) && w < |s.workers| && !s.workers[w].pc.CommitNew?
    requires Statement(cfg, s, w, rate).Some?
    ensures SerialInv(Statement(cfg, s, w, rate).value)
  {
    hide Local, KnowsOk, BumpsOk, AnswerOk, LoopOk, LogOk, TablesOk, AllFree, MayUpdate;
    assert WorkerOk(cfg, seed, s.history, s.workers[w]);
    if Local(cfg, s, w, rate).Some? {
      LocalFresh(cfg, s, w, rate);
    }
  }

  lemma SerialStep(cfg: Config, seed: Db, s: State, step: Step)
    requires Inv(cfg, seed, s) && SerialInv(s) && OneOpen(s) && Next(cfg, s, step).Some?
    ensures SerialInv(Next(cfg, s, step).value)
  {
    hide Statement, Inv, OneOpen, AllFree, MayUpdate;
    match step {
      case Go(w, rate) =>
        if s.workers[w].pc.CommitNew? {
          CommitIsTransfer(cfg, s, w, rate);
          SerialCommit(cfg, seed, s, w, SendEmail(Some(s.workers[w].transferId)));
        } else {
          SerialStatement(cfg, seed, s, w, rate);
        }
      case LoseAck(w) =>
        if s.workers[w].pc.CommitNew? {
          SerialCommit(cfg, seed, s, w, Threw);
        } else {
          FreshPut(s.(db := CommitRecord(s.db, s.workers[w])), w, EndTx(s.workers[w], Threw));
        }
      case Start(w, job) => FreshPut(s, w, Begin(cfg, job));
      case Break(w) => FreshPut(s, w, EndTx(s.workers[w], Threw));
      case Crash(w) => FreshPut(s, w, EndTx(s.workers[w], Idle));
      case _ => assert Next(cfg, s, step).value.workers == s.workers;
    }
  }

  lemma FreshPut(s: State, w: nat, y: Worker)
    requires SerialInv(s) && w < |s.workers| && Rank(y) == 0
    ensures SerialInv(Put(s, w, y))
  {
    forall v | 0 <= v < |s.workers|
      ensures Fresh(s.history, Put(s, w, y).workers[v])
    {
      assert v != w ==> Fresh(s.history, s.workers[v]);
    }
  }

  lemma {:induction false} SerialRun(cfg: Config, r: Run, i: nat)
    requires IsRun(cfg, r) && i < |r.states| && Serial(r)
    ensures SerialInv(r.states[i])
  {
    hide Inv;
    if i > 0 {
      SerialRun(cfg, r, i - 1);
      RunOk(cfg, r, i - 1);
      assert Next(cfg, r.states[i - 1], r.steps[i - 1]) == Some(r.states[i]);
      SerialStep(cfg, r.states[0].db, r.states[i - 1], r.steps[i - 1]);
    }
  }

  lemma StepKeepsWorkers(cfg: Config, s: State, step: Step)
    requires Next(cfg, s, step).Some?
    ensures |Next(cfg, s, step).value.workers| == |s.workers|
  {
    hide Local, AllFree, MayUpdate, CommitRecord, UpdateRecord, Bump, AfterError;
  }

  lemma {:induction false} SameWorkers(cfg: Config, r: Run, i: nat)
    requires IsRun(cfg, r) && i < |r.states|
    ensures |r.states[i].workers| == |r.states[0].workers|
  {
    hide Next, Init;
    if i > 0 {
      SameWorkers(cfg, r, i - 1);
      assert Next(cfg, r.states[i - 1], r.steps[i - 1]) == Some(r.states[i]);
      StepKeepsWorkers(cfg, r.states[i - 1], r.steps[i - 1]);
    }
  }

  /** One worker cannot have two transactions open. */
  lemma OneWorkerIsSerial(cfg: Config, r: Run)
    requires IsRun(cfg, r) && |r.states[0].workers| <= 1
    ensures Serial(r)
  {
    hide Next, Init;
    forall i | 0 <= i < |r.states|
      ensures OneOpen(r.states[i])
    {
      SameWorkers(cfg, r, i);
    }
  }

  lemma {:induction false} FreshBalances(cfg: Config, seed: Db, h: seq<Commit>, x: WalletId)
    requires FreshLog(h) && LogOk(cfg, seed, h) && Balance(seed.ledger, x) >= 0.0
    ensures Balance(LedgerOf(seed.ledger, h), x) >= 0.0
  {
    hide VersionOf;
    if h != [] {
      var m := |h| - 1;
      var g := h[..m];
      var c := h[m];
      assert Fits(cfg, seed, g, c) && g[..m] == g;
      forall j | 0 <= j < m
        ensures Fits(cfg, seed, g[..j], g[j])
      {
        assert g[..j] == h[..j];
        assert Fits(cfg, seed, h[..j], h[j]);
      }
      FreshBalances(cfg, seed, g, x);
      BalancePair(LedgerOf(seed.ledger, g), DebitRow(c.job), CreditRow(c.job, c.credit), x);
    }
  }

  /** Run one transaction at a time, funded wallets are never overdrawn. */
  lemma SerialRunsNeverOverdraw(cfg: Config, r: Run, i: nat, x: WalletId)
    requires IsRun(cfg, r) && i < |r.states| && Serial(r)
    requires Balance(r.states[0].db.ledger, x) >= 0.0
    ensures Balance(r.states[i].db.ledger, x) >= 0.0
  {
    hide WorkerOk, LedgerOf, Balance, Fits;
    RunOk(cfg, r, i);
    SerialRun(cfg, r, i);
    FreshBalances(cfg, r.states[0].db, r.states[i].history, x);
  }
}
