/**
 Where transfers and forgotten answers come from: every committed transfer from a queued job that can
 pay, every `{ transferId: null }` from a queued job whose pair collides with itself.
 */
module Provenance {
  import opened Wrappers
  import opened Tables
  import opened TransferProtocol
  import opened History
  import opened Invariant
  import opened StatusLayer

  /** The source wallet is the user's, the amount is positive and the target wallet exists. */
  predicate Checked(cfg: Config, job: Payload)
  {
    Owns(cfg, job) && job.amount > 0.0 && job.to in cfg.wallets
  }

  /** A job that can commit a transfer for `k`. */
  predicate Payer(cfg: Config, job: Payload, k: Key)
  {
    job.key == Some(k) && job.txId.None? && Checked(cfg, job) && job.from != job.to
  }

  /** A job for `k` that gets as far as its pair, which then collides with itself. */
  predicate Collider(cfg: Config, job: Payload, k: Key)
  {
    job.key == Some(k) && job.txId.Some? && Checked(cfg, job)
  }

  predicate HasPayer(cfg: Config, jobs: set<Payload>, k: Key)
  {
    exists job :: job in jobs && Payer(cfg, job, k)
  }

  predicate HasCollider(cfg: Config, jobs: set<Payload>, k: Key)
  {
    exists job :: job in jobs && Collider(cfg, job, k)
  }

  // ---------- workers and the log ----------

  predicate WorkerQueued(cfg: Config, jobs: set<Payload>, x: Worker)
  {
    && (!x.pc.Idle? ==> x.job in jobs)
    && (Reconciling(x.pc) ==> Checked(cfg, x.job))
  }

  /** Whatever is worked on or logged was queued, and only jobs that passed the checks reconcile. */
  predicate QueueInv(cfg: Config, s: State)
  {
    && (forall w :: 0 <= w < |s.workers| ==> WorkerQueued(cfg, s.jobs, s.workers[w]))
    && (forall i :: 0 <= i < |s.history| ==> s.history[i].job in s.jobs)
  }

  /** Reconciliation begins with a refused pair. */
  lemma OnlyInsertReconciles(cfg: Config, s: State, w: nat, rate: real)
    requires w < |s.workers| && Local(cfg, s, w, rate).Some?
    ensures var x, y := s.workers[w], Local(cfg, s, w, rate).value;
            y.job == x.job && !x.pc.Idle? && (Reconciling(y.pc) ==> Reconciling(x.pc) || x.pc.InsertPair?)
  {
    hide Balance, FindTransfer, HasKey, PairCollides, KeyFree, PairFree, WalletFree, Exchanged, BackoffMs,
         SeesRecord, Ver;
    var pc := s.workers[w].pc;
    if OnStatus(pc) {
      hide CheckStatement, WriteStatement, AroundStatement;
    } else if OnChecks(pc) {
      hide StatusStatement, WriteStatement, AroundStatement;
    } else if OnWrites(pc) {
      hide StatusStatement, CheckStatement, AroundStatement;
    } else {
      hide StatusStatement, CheckStatement, WriteStatement;
    }
  }

  lemma InserterChecked(cfg: Config, seed: Db, h: seq<Commit>, x: Worker)
    requires WorkerOk(cfg, seed, h, x) && x.pc.InsertPair?
    ensures Checked(cfg, x.job)
  {
    hide LedgerOf, VersionOf, TransfersOf, Balance, AnswerOk, BumpsOk, LoopOk;
  }

  lemma LocalQueued(cfg: Config, seed: Db, s: State, w: nat, rate: real)
    requires Inv(cfg, seed, s) && QueueInv(cfg, s) && w < |s.workers| && Local(cfg, s, w, rate).Some?
    ensures WorkerQueued(cfg, s.jobs, Local(cfg, s, w, rate).value)
  {
    hide Local, Checked, WorkerOk;
    OnlyInsertReconciles(cfg, s, w, rate);
    if s.workers[w].pc.InsertPair? {
      InserterChecked(cfg, seed, s.history, s.workers[w]);
    }
  }

  lemma VisibleQueued(cfg: Config, s: State, w: nat, rate: real)
    requires QueueInv(cfg, s) && w < |s.workers| && Statement(cfg, s, w, rate).Some?
    requires VisibleStatement(s.workers[w].pc) || s.workers[w].pc.CommitNew?
    ensures QueueInv(cfg, Statement(cfg, s, w, rate).value)
  {
    hide Local, Checked, AllFree, MayUpdate, CommitRecord, UpdateRecord, Bump;
  }

  lemma GoQueued(cfg: Config, seed: Db, s: State, w: nat, rate: real)
    requires Inv(cfg, seed, s) && QueueInv(cfg, s) && w < |s.workers| && Statement(cfg, s, w, rate).Some?
    ensures QueueInv(cfg, Statement(cfg, s, w, rate).value)
  {
    hide Inv, Local, WorkerQueued;
    if VisibleStatement(s.workers[w].pc) || s.workers[w].pc.CommitNew? {
      VisibleQueued(cfg, s, w, rate);
    } else {
      LocalQueued(cfg, seed, s, w, rate);
    }
  }

  lemma StepQueued(cfg: Config, seed: Db, s: State, step: Step)
    requires Inv(cfg, seed, s) && QueueInv(cfg, s) && Next(cfg, s, step).Some?
    ensures QueueInv(cfg, Next(cfg, s, step).value)
  {
    hide Inv, Statement, Checked, AllFree, MayUpdate, CommitRecord, UpdateRecord, Bump;
    match step {
      case Go(w, rate) => GoQueued(cfg, seed, s, w, rate);
      case _ =>
    }
  }

  lemma {:induction false} QueueRun(cfg: Config, r: Run, i: nat)
    requires IsRun(cfg, r) && i < |r.states|
    ensures QueueInv(cfg, r.states[i])
  {
    hide Inv, Next;
    if i > 0 {
      QueueRun(cfg, r, i - 1);
      RunOk(cfg, r, i - 1);
      assert Next(cfg, r.states[i - 1], r.steps[i - 1]) == Some(r.states[i]);
      hide QueueInv;
      StepQueued(cfg, r.states[0].db, r.states[i - 1], r.steps[i - 1]);
    }
  }

  /** A key with a committed transfer has a queued job that can pay. */
  lemma PaidHasPayer(cfg: Config, r: Run, i: nat, k: Key)
    requires IsRun(cfg, r) && i < |r.states| && KeyUsed(r.states[i].history, k)
    ensures HasPayer(cfg, r.states[i].jobs, k)
  {
    hide WorkerOk, LedgerOf, VersionOf, TransfersOf, Balance;
    var s := r.states[i];
    RunOk(cfg, r, i);
    QueueRun(cfg, r, i);
    var j :| 0 <= j < |s.history| && s.history[j].key == k;
    assert Fits(cfg, r.states[0].db, s.history[..j], s.history[j]);
    assert Payer(cfg, s.history[j].job, k);
  }

  // ---------- the forgotten answer ----------

  /** A record that says `{ transferId: null }` has a job to blame. */
  predicate Blamed(cfg: Config, s: State, k: Key)
  {
    k in s.db.idem && s.db.idem[k] == Done(None) ==> HasCollider(cfg, s.jobs, k)
  }

  lemma GoForgets(cfg: Config, s: State, w: nat, rate: real, k: Key)
    requires w < |s.workers| && Statement(cfg, s, w, rate).Some?
    requires var x := s.workers[w];
             x.pc.CommitNew? || x.pc.CommitExisting? ==> x.write.Some? && x.write.value != Done(None)
    requires var t := Statement(cfg, s, w, rate).value; k in t.db.idem && t.db.idem[k] == Done(None)
    ensures (k in s.db.idem && s.db.idem[k] == Done(None))
            || (s.workers[w].pc.ReconcileMark? && KeyOf(s.workers[w]) == k)
  {
    hide Local, AllFree, MayUpdate, Bump;
  }

  /** Only reconciliation outside the transaction writes that answer. */
  lemma OnlyReconcilingForgets(cfg: Config, s: State, step: Step, k: Key)
    requires cfg.statusTrusted && StatusInv(s) && Next(cfg, s, step).Some?
    requires var t := Next(cfg, s, step).value; k in t.db.idem && t.db.idem[k] == Done(None)
    ensures (k in s.db.idem && s.db.idem[k] == Done(None))
            || (step.Go? && step.w < |s.workers|
                && s.workers[step.w].pc.ReconcileMark? && KeyOf(s.workers[step.w]) == k)
  {
    hide Statement, RecordOk, StatusWorker, AllFree, MayUpdate, Bump;
    if (step.Go? || step.LoseAck?) && (s.workers[step.w].pc.CommitNew? || s.workers[step.w].pc.CommitExisting?) {
      CommitsDone(s.db.idem, s.history, s.jobs, s.workers[step.w]);
    }
    if step.Go? {
      GoForgets(cfg, s, step.w, step.rate, k);
    }
  }

  lemma ReconcilerCollides(cfg: Config, seed: Db, s: State, w: nat)
    requires Inv(cfg, seed, s) && StatusInv(s) && QueueInv(cfg, s) && w < |s.workers| && s.workers[w].pc.ReconcileMark?
    ensures HasCollider(cfg, s.jobs, KeyOf(s.workers[w]))
  {
    hide Inv, Checked, RecordOk, TransfersOf;
    ReconcilerHasKey(cfg, seed, s, w);
    assert StatusWorker(s.db.idem, s.history, s.jobs, s.workers[w]);
    assert Collider(cfg, s.workers[w].job, KeyOf(s.workers[w]));
  }

  lemma JobsOnlyGrow(cfg: Config, s: State, step: Step)
    requires Next(cfg, s, step).Some?
    ensures s.jobs <= Next(cfg, s, step).value.jobs
  {
    hide Local, AllFree, MayUpdate, CommitRecord, UpdateRecord;
  }

  lemma {:induction false} ForgottenHasCollider(cfg: Config, r: Run, i: nat, k: Key)
    requires IsRun(cfg, r) && i < |r.states| && cfg.statusTrusted
    ensures Blamed(cfg, r.states[i], k)
  {
    hide Inv, StatusInv, QueueInv, Next;
    if i > 0 {
      hide Init;
      var s, step := r.states[i - 1], r.steps[i - 1];
      ForgottenHasCollider(cfg, r, i - 1, k);
      RunOk(cfg, r, i - 1);
      StatusRun(cfg, r, i - 1);
      QueueRun(cfg, r, i - 1);
      assert Next(cfg, s, step) == Some(r.states[i]);
      JobsOnlyGrow(cfg, s, step);
      if k in r.states[i].db.idem && r.states[i].db.idem[k] == Done(None) {
        OnlyReconcilingForgets(cfg, s, step, k);
        if step.Go? && step.w < |s.workers| && s.workers[step.w].pc.ReconcileMark? && KeyOf(s.workers[step.w]) == k {
          ReconcilerCollides(cfg, r.states[0].db, s, step.w);
        }
      }
    }
  }
}
