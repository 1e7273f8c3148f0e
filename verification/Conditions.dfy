/**
 The promises the protocol does not keep everywhere, each with its exact condition on the configuration,
 the queued jobs and the number of workers.
 */
module Conditions {
  import opened Wrappers
  import opened Tables
  import opened TransferProtocol
  import opened History
  import opened Invariant
  import opened StatusLayer
  import opened Provenance
  import Bank
  import Finality
  import Guarantees
  import IndexLayer
  import Windows
  import Witnesses

  // ---------- nothing is committed without a retry loop, a worker and two wallets ----------

  /** Whoever gets to commit has entered the loop, and pays from one existing wallet to another. */
  lemma CommitterCanPay(cfg: Config, seed: Db, s: State, w: nat)
    requires Inv(cfg, seed, s) && w < |s.workers| && s.workers[w].pc.CommitNew?
    ensures Witnesses.Transferring(cfg, s.workers[w].job.from, s.workers[w].job.to)
  {
    hide LogOk, TablesOk, LedgerOf, VersionOf, TransfersOf, AnswerOk;
    assert WorkerOk(cfg, seed, s.history, s.workers[w]);
  }

  lemma {:induction false} LoggedWasPossible(cfg: Config, r: Run, i: nat)
    requires IsRun(cfg, r) && i < |r.states| && r.states[i].history != []
    ensures |r.states[0].workers| >= 1 && CanTransfer(cfg)
  {
    hide Inv, Next, Statement;
    assert i > 0;
    var s, step := r.states[i - 1], r.steps[i - 1];
    assert Next(cfg, s, step) == Some(r.states[i]);
    if s.history != [] {
      LoggedWasPossible(cfg, r, i - 1);
    } else {
      RunOk(cfg, r, i - 1);
      Windows.SameWorkers(cfg, r, i - 1);
      match Bank.Committer(s, step) {
        case None => Bank.OthersStutter(cfg, s, step);
        case Some(w) => CommitterCanPay(cfg, r.states[0].db, s, w);
      }
    }
  }

  predicate CanTransfer(cfg: Config)
  {
    exists from, to :: from in cfg.wallets && to in cfg.wallets && Witnesses.Transferring(cfg, from, to)
  }

  lemma FoundWasLogged(cfg: Config, r: Run, i: nat, k: Key)
    requires IsRun(cfg, r) && i < |r.states| && FindTransfer(r.states[i].db.transfers, k).Some?
    ensures KeyUsed(r.states[i].history, k) && r.states[i].history != []
  {
    hide WorkerOk, LogOk, FindTransfer, LedgerOf, VersionOf, TransfersOf;
    RunOk(cfg, r, i);
    FoundIffUsed(r.states[i].history, k);
  }

  // ---------- overdrafts ----------

  ghost predicate Solvent(ledger: seq<LedgerRow>)
  {
    forall x :: Balance(ledger, x) >= 0.0
  }

  /** `n` workers can overdraw a wallet that, like all others, began without debt. */
  ghost predicate CanOverdraw(cfg: Config, n: nat)
  {
    exists r: Run, i: nat ::
      i < |r.states| && IsRun(cfg, r) && |r.states[0].workers| == n
      && Solvent(r.states[0].db.ledger) && !Solvent(r.states[i].db.ledger)
  }

  lemma NoOverdraft(cfg: Config, r: Run, i: nat, x: WalletId)
    requires IsRun(cfg, r) && i < |r.states| && Balance(r.states[0].db.ledger, x) >= 0.0
    requires |r.states[0].workers| <= 1 || !CanTransfer(cfg)
    ensures Balance(r.states[i].db.ledger, x) >= 0.0
  {
    hide Balance, Next, Init, WorkerOk, LogOk, VersionOf;
    if |r.states[0].workers| <= 1 {
      Windows.OneWorkerIsSerial(cfg, r);
      Windows.SerialRunsNeverOverdraw(cfg, r, i, x);
    } else {
      RunOk(cfg, r, i);
      if r.states[i].history != [] {
        LoggedWasPossible(cfg, r, i);
      }
    }
  }

  /** Overdrafts are possible exactly with two workers or more, wherever anything can be transferred at all. */
  lemma OverdraftPossibleIff(cfg: Config, n: nat)
    ensures CanOverdraw(cfg, n) <==> n >= 2 && CanTransfer(cfg)
  {
    hide IsRun, Balance;
    if n >= 2 && CanTransfer(cfg) {
      var from, to :| from in cfg.wallets && to in cfg.wallets && Witnesses.Transferring(cfg, from, to);
      var r := Witnesses.OverdraftHappens(cfg, from, to, 1.0, n);
      forall x
        ensures Balance(r.states[0].db.ledger, x) >= 0.0
      {
        Witnesses.OneGrant(from, 1.0, x);
      }
      var i := |r.states| - 1;
      assert !Solvent(r.states[i].db.ledger);
    }
    if CanOverdraw(cfg, n) {
      var r: Run, i: nat :|
        i < |r.states| && IsRun(cfg, r) && |r.states[0].workers| == n
        && Solvent(r.states[0].db.ledger) && !Solvent(r.states[i].db.ledger);
      var x :| Balance(r.states[i].db.ledger, x) < 0.0;
      if n <= 1 || !CanTransfer(cfg) {
        NoOverdraft(cfg, r, i, x);
      }
    }
  }

  /** `n` workers on these jobs can overdraw `x`, which, like all wallets, began without debt. */
  ghost predicate CanOverdrawWallet(cfg: Config, jobs: set<Payload>, n: nat, x: WalletId)
  {
    exists r: Run, i: nat ::
      i < |r.states| && IsRun(cfg, r) && |r.states[0].workers| == n && r.states[i].jobs == jobs
      && Solvent(r.states[0].db.ledger) && Balance(r.states[i].db.ledger, x) < 0.0
  }

  predicate HasTwoPayers(cfg: Config, jobs: set<Payload>, x: WalletId)
  {
    exists a, b :: a in jobs && b in jobs && Witnesses.SpendTogether(cfg, jobs, x, a, b)
  }

  lemma KeysAreDistinct(cfg: Config, r: Run, i: nat)
    requires IsRun(cfg, r) && i < |r.states| && (cfg.uniqueIndex || cfg.statusTrusted)
    ensures DistinctKeys(r.states[i].history)
  {
    hide IsRun;
    if cfg.uniqueIndex {
      IndexLayer.IndexRun(cfg, r, i);
    } else {
      StatusRun(cfg, r, i);
    }
  }

  /** An overdrawn wallet has paid twice, for two different keys, one debit in the gap of the other. */
  lemma OverdrawnHasTwoPayers(cfg: Config, r: Run, i: nat, x: WalletId)
    requires IsRun(cfg, r) && i < |r.states| && (cfg.uniqueIndex || cfg.statusTrusted)
    requires Balance(r.states[0].db.ledger, x) >= 0.0 && Balance(r.states[i].db.ledger, x) < 0.0
    ensures HasTwoPayers(cfg, r.states[i].jobs, x)
  {
    hide Balance, IsRun, QueueInv, Checked, DistinctKeys;
    var h, jobs := r.states[i].history, r.states[i].jobs;
    if Windows.GapsFree(h, x) {
      Windows.FreeGapsNeverOverdraw(cfg, r, i, x);
      assert false;
    }
    var j, k :|
      0 <= j < |h| && h[j].job.from == x && h[j].balanceAt <= k < h[j].fromAt && k < |h| && h[k].job.from == x;
    LoggedPays(cfg, r, i, j);
    LoggedPays(cfg, r, i, k);
    KeysAreDistinct(cfg, r, i);
    LoggedWasPossible(cfg, r, i);
    assert h[j].key != h[k].key by { DifferentKeys(h, k, j); }
    assert Witnesses.SpendTogether(cfg, jobs, x, h[j].job, h[k].job);
  }

  lemma DifferentKeys(h: seq<Commit>, k: nat, j: nat)
    requires DistinctKeys(h) && k < j < |h|
    ensures h[j].key != h[k].key
  {
  }

  lemma LoggedPays(cfg: Config, r: Run, i: nat, j: nat)
    requires IsRun(cfg, r) && i < |r.states| && j < |r.states[i].history|
    ensures var c := r.states[i].history[j];
            c.fromAt <= j && c.job.key == Some(c.key) && c.job in r.states[i].jobs && Payer(cfg, c.job, c.key)
  {
    hide IsRun, LedgerOf, VersionOf, Balance;
    Windows.LogFits(cfg, r, i, j);
    QueueRun(cfg, r, i);
  }

  /**
   A wallet can be overdrawn exactly with two workers or more, a retry loop that is entered, and two queued jobs
   of different keys that can pay from it.
   */
  lemma OverdrawsWalletIff(cfg: Config, jobs: set<Payload>, n: nat, x: WalletId)
    requires cfg.uniqueIndex || cfg.statusTrusted
    ensures CanOverdrawWallet(cfg, jobs, n, x) <==> n >= 2 && HasTwoPayers(cfg, jobs, x)
  {
    hide IsRun, Balance, Payer;
    if n >= 2 && HasTwoPayers(cfg, jobs, x) {
      var a, b :| a in jobs && b in jobs && Witnesses.SpendTogether(cfg, jobs, x, a, b);
      var r := Witnesses.SpentTwice(cfg, jobs, x, a, b, n);
      forall y
        ensures Balance(r.states[0].db.ledger, y) >= 0.0
      {
        assert a.amount > 0.0 by { PayerPays(cfg, a); }
        Witnesses.OneGrant(x, Witnesses.Larger(a.amount, b.amount), y);
      }
      PayerPays(cfg, a);
      PayerPays(cfg, b);
      var i := |r.states| - 1;
      assert r.states[i].jobs == jobs && Balance(r.states[i].db.ledger, x) < 0.0;
    }
    if CanOverdrawWallet(cfg, jobs, n, x) {
      var r: Run, i: nat :|
        i < |r.states| && IsRun(cfg, r) && |r.states[0].workers| == n && r.states[i].jobs == jobs
        && Solvent(r.states[0].db.ledger) && Balance(r.states[i].db.ledger, x) < 0.0;
      OverdrawnHasTwoPayers(cfg, r, i, x);
      if n <= 1 {
        NoOverdraft(cfg, r, i, x);
      }
    }
  }

  lemma PayerPays(cfg: Config, a: Payload)
    requires a.key.Some? && Payer(cfg, a, a.key.value)
    ensures a.amount > 0.0
  {
  }

  // ---------- the forgotten answer ----------

  /** `n` workers on these jobs can leave `{ transferId: null }` in the record of `k`. */
  ghost predicate CanForget(cfg: Config, jobs: set<Payload>, n: nat, k: Key)
  {
    exists r: Run, i: nat ::
      i < |r.states| && IsRun(cfg, r) && |r.states[0].workers| == n && r.states[i].jobs == jobs
      && k in r.states[i].db.idem && r.states[i].db.idem[k] == Done(None)
  }

  /** A worker by itself finds at its second look what it found at its first. */
  predicate Consistent(h: seq<Commit>, x: Worker)
  {
    && (x.pc.ReconcileLedger? ==> !KeyUsed(h, KeyOf(x)))
    && (x.pc.ReconcileMark? ==> x.pc.found.Some?)
  }

  lemma LocalConsistent(cfg: Config, seed: Db, s: State, w: nat, rate: real)
    requires StatusMove(cfg, seed, s, w, rate) && Consistent(s.history, s.workers[w])
    ensures Consistent(s.history, Local(cfg, s, w, rate).value)
  {
    hide TransfersOf, FindTransfer, HasKey, KeyUsed, Balance, PairCollides, KeyFree, PairFree, WalletFree, Exchanged,
         BackoffMs, SeesRecord, Ver, StatusWorker, RecordOk, FrameOk;
    FoundIffUsed(s.history, KeyOf(s.workers[w]));
    var pc := s.workers[w].pc;
    if OnStatus(pc) {
      hide CheckStatement, WriteStatement, AroundStatement;
    } else if OnChecks(pc) {
      hide StatusStatement, WriteStatement, AroundStatement;
    } else if OnWrites(pc) {
      hide StatusStatement, CheckStatement, AroundStatement;
    } else {
      hide StatusStatement, CheckStatement, WriteStatement;
    }
  }

  predicate AllConsistent(s: State)
  {
    forall w :: 0 <= w < |s.workers| ==> Consistent(s.history, s.workers[w])
  }

  lemma GoConsistent(cfg: Config, seed: Db, s: State, w: nat, rate: real)
    requires Inv(cfg, seed, s) && StatusInv(s) && AllConsistent(s) && |s.workers| <= 1
    requires w < |s.workers| && Statement(cfg, s, w, rate).Some?
    ensures AllConsistent(Statement(cfg, s, w, rate).value)
  {
    hide Inv, StatusInv, StatusMove, Local, KeyUsed, AllFree, MayUpdate, CommitRecord, UpdateRecord, Bump;
    if !VisibleStatement(s.workers[w].pc) && !s.workers[w].pc.CommitNew? {
      LocalFacts(cfg, seed, s, w, rate);
      LocalConsistent(cfg, seed, s, w, rate);
    }
  }

  lemma StepConsistent(cfg: Config, seed: Db, s: State, step: Step)
    requires Inv(cfg, seed, s) && StatusInv(s) && AllConsistent(s) && |s.workers| <= 1
    requires Next(cfg, s, step).Some?
    ensures AllConsistent(Next(cfg, s, step).value)
  {
    hide Inv, StatusInv, Statement, KeyUsed, AllFree, MayUpdate, CommitRecord, UpdateRecord, Bump;
    match step {
      case Go(w, rate) => GoConsistent(cfg, seed, s, w, rate);
      case _ =>
    }
  }

  lemma {:induction false} OneWorkerConsistent(cfg: Config, r: Run, i: nat)
    requires IsRun(cfg, r) && i < |r.states| && cfg.statusTrusted && |r.states[0].workers| <= 1
    ensures AllConsistent(r.states[i])
  {
    hide Inv, StatusInv, Next;
    if i > 0 {
      hide AllConsistent, Init;
      OneWorkerConsistent(cfg, r, i - 1);
      RunOk(cfg, r, i - 1);
      StatusRun(cfg, r, i - 1);
      Windows.SameWorkers(cfg, r, i - 1);
      assert Next(cfg, r.states[i - 1], r.steps[i - 1]) == Some(r.states[i]);
      StepConsistent(cfg, r.states[0].db, r.states[i - 1], r.steps[i - 1]);
    }
  }

  /** A single worker never forgets. */
  lemma {:induction false} OneWorkerRemembers(cfg: Config, r: Run, i: nat, k: Key)
    requires IsRun(cfg, r) && i < |r.states| && cfg.statusTrusted && |r.states[0].workers| <= 1
    ensures !(k in r.states[i].db.idem && r.states[i].db.idem[k] == Done(None))
  {
    hide StatusInv, Next, KeyUsed;
    if i > 0 && k in r.states[i].db.idem && r.states[i].db.idem[k] == Done(None) {
      hide Init;
      var s, step := r.states[i - 1], r.steps[i - 1];
      OneWorkerRemembers(cfg, r, i - 1, k);
      StatusRun(cfg, r, i - 1);
      OneWorkerConsistent(cfg, r, i - 1);
      assert Next(cfg, s, step) == Some(r.states[i]);
      OnlyReconcilingForgets(cfg, s, step, k);
      ForgetsFound(cfg, s, step, k);
    }
  }

  lemma ForgetsFound(cfg: Config, s: State, step: Step, k: Key)
    requires AllConsistent(s) && step.Go? && step.w < |s.workers| && s.workers[step.w].pc.ReconcileMark?
    requires KeyOf(s.workers[step.w]) == k && Next(cfg, s, step).Some?
    requires !(k in s.db.idem && s.db.idem[k] == Done(None))
    ensures var t := Next(cfg, s, step).value; !(k in t.db.idem && t.db.idem[k] == Done(None))
  {
    hide AllFree, MayUpdate, Local;
  }

  /**
   A completed record can forget its transfer exactly with two workers or more, a retry loop that is entered,
   and both kinds of job queued for the key: one that collides with itself and one that can pay.
   */
  lemma ForgetsIff(cfg: Config, jobs: set<Payload>, n: nat, k: Key)
    requires cfg.statusTrusted
    ensures CanForget(cfg, jobs, n, k)
            <==> n >= 2 && cfg.maxRetries >= 0 && HasCollider(cfg, jobs, k) && HasPayer(cfg, jobs, k)
  {
    hide IsRun, Collider, Payer;
    if n >= 2 && cfg.maxRetries >= 0 && HasCollider(cfg, jobs, k) && HasPayer(cfg, jobs, k) {
      var a :| a in jobs && Collider(cfg, a, k);
      var b :| b in jobs && Payer(cfg, b, k);
      var r := Witnesses.CompletedForgetsTransfer(cfg, jobs, k, a, b, n);
      var i := |r.states| - 1;
      assert r.states[i].jobs == jobs;
    }
    if CanForget(cfg, jobs, n, k) {
      var r: Run, i: nat :|
        i < |r.states| && IsRun(cfg, r) && |r.states[0].workers| == n && r.states[i].jobs == jobs
        && k in r.states[i].db.idem && r.states[i].db.idem[k] == Done(None);
      ForgetsOnlyThen(cfg, r, i, k);
    }
  }

  lemma ForgetsOnlyThen(cfg: Config, r: Run, i: nat, k: Key)
    requires cfg.statusTrusted && IsRun(cfg, r) && i < |r.states|
    requires k in r.states[i].db.idem && r.states[i].db.idem[k] == Done(None)
    ensures |r.states[0].workers| >= 2 && cfg.maxRetries >= 0
    ensures HasCollider(cfg, r.states[i].jobs, k) && HasPayer(cfg, r.states[i].jobs, k)
  {
    hide Next, Init, FindTransfer, HasKey, Collider, Payer;
    ForgottenHasCollider(cfg, r, i, k);
    Guarantees.StatusTellsTheTruth(cfg, r, i, k);
    FoundWasLogged(cfg, r, i, k);
    LoggedWasPossible(cfg, r, i);
    if |r.states[0].workers| <= 1 {
      OneWorkerRemembers(cfg, r, i, k);
    }
  }

  // ---------- the failed record ----------

  /** `n` workers on these jobs can leave a failed record beside a committed transfer of `k`. */
  ghost predicate CanMisreport(cfg: Config, jobs: set<Payload>, n: nat, k: Key)
  {
    exists r: Run, i: nat ::
      i < |r.states| && IsRun(cfg, r) && |r.states[0].workers| == n && r.states[i].jobs == jobs
      && Finality.HasStatus(r.states[i], k, Failed) && FindTransfer(r.states[i].db.transfers, k).Some?
  }

  /** Money can move and be reported failed exactly where it can move at all: a worker, the loop, a job that can pay. */
  lemma MisreportsIff(cfg: Config, jobs: set<Payload>, n: nat, k: Key)
    ensures CanMisreport(cfg, jobs, n, k) <==> n >= 1 && cfg.maxRetries >= 0 && HasPayer(cfg, jobs, k)
  {
    hide IsRun, Payer, FindTransfer;
    if n >= 1 && cfg.maxRetries >= 0 && HasPayer(cfg, jobs, k) {
      var b :| b in jobs && Payer(cfg, b, k);
      var r := Witnesses.PaidYetFailed(cfg, jobs, k, b, n);
      var i := |r.states| - 1;
      assert r.states[i].jobs == jobs && Finality.HasStatus(r.states[i], k, Failed);
    }
    if CanMisreport(cfg, jobs, n, k) {
      var r: Run, i: nat :|
        i < |r.states| && IsRun(cfg, r) && |r.states[0].workers| == n && r.states[i].jobs == jobs
        && Finality.HasStatus(r.states[i], k, Failed) && FindTransfer(r.states[i].db.transfers, k).Some?;
      FoundWasLogged(cfg, r, i, k);
      LoggedWasPossible(cfg, r, i);
      PaidHasPayer(cfg, r, i, k);
    }
  }
}
