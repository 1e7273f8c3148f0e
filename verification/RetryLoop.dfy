/** What one call of `process` can do: how long it runs, how long it sleeps, what it may answer. */
module RetryLoop {
  import opened Tables
  import opened TransferProtocol
  import opened History
  import opened Invariant

  lemma {:induction false} SleptClosedForm(n: nat)
    ensures SleptBefore(n) == 100 * (Pow2(n) - 1)
  {
    if n > 0 {
      SleptClosedForm(n - 1);
    }
  }

  /** With room for no attempt there is no attempt; otherwise at most `maxRetries` retries, each after its sleep. */
  lemma RetriesAndSleeps(cfg: Config, r: Run, i: nat, w: nat)
    requires IsRun(cfg, r) && i < |r.states| && w < |r.states[i].workers| && !r.states[i].workers[w].pc.Idle?
    ensures var x := r.states[i].workers[w];
            && x.slept == 100 * (Pow2(x.attempt) - 1)
            && (cfg.maxRetries >= 0 ==> x.attempt <= cfg.maxRetries)
            && (cfg.maxRetries < 0 ==> !InTx(x.pc) && Answer(x.pc).None?)
  {
    hide LedgerOf, VersionOf, TransfersOf, KnowsOk, AnswerOk, LogOk, BumpsOk, Pow2, SleptBefore;
    RunOk(cfg, r, i);
    assert WorkerOk(cfg, r.states[0].db, r.states[i].history, r.states[i].workers[w]);
    SleptClosedForm(r.states[i].workers[w].attempt);
  }

  /** A transfer id given as an answer names a committed transfer of the job's own key. */
  lemma AnswersNameCommittedTransfers(cfg: Config, r: Run, i: nat, w: nat)
    requires IsRun(cfg, r) && i < |r.states| && w < |r.states[i].workers|
    ensures var x := r.states[i].workers[w];
            x.pc.Returned? && x.pc.result.Some?
            ==> x.job.key.Some? && HasTransfer(r.states[i].db.transfers, x.pc.result.value, x.job.key.value)
  {
    hide LedgerOf, VersionOf, TransfersOf, KnowsOk, FrameOk, LogOk, BumpsOk, HasTransfer;
    RunOk(cfg, r, i);
    assert WorkerOk(cfg, r.states[0].db, r.states[i].history, r.states[i].workers[w]);
  }

  // ---------- termination ----------

  /** An upper bound on the statements left in the current attempt. */
  function Left(pc: Pc): nat
  {
    match pc
    case Cas => 30
    case ReadStatus => 29
    case FindExisting => 28
    case FindLedger => 27
    case EnsureRecord => 26
    case CheckOwner => 25
    case ReadBalance => 24
    case ReadFrom => 23
    case ReadTo => 22
    case Convert => 21
    case InsertPair => 20
    case ReconcileTransfer(inside) => if inside then 19 else 9
    case ReconcileLedger(inside) => if inside then 18 else 8
    case ReconcileMark(inside, _) => if inside then 17 else 7
    case InsertTransfer => 16
    case BumpFrom => 15
    case BumpTo => 14
    case MarkDone => 13
    case CommitNew => 12
    case MarkExisting(_) => 11
    case CommitExisting(_) => 10
    case RecordFailure => 4
    case SendFailureEmail => 3
    case SendEmail(_) => 2
    case Backoff => 1
    case Idle | Returned(_) | Threw => 0
  }

  function Measure(cfg: Config, x: Worker): int
  {
    (cfg.maxRetries - x.attempt) * 30 + Left(x.pc)
  }

  lemma StatusRunsOut(cfg: Config, s: State, w: nat, rate: real)
    requires w < |s.workers| && Local(cfg, s, w, rate).Some? && OnStatus(s.workers[w].pc)
    ensures Measure(cfg, Local(cfg, s, w, rate).value) < Measure(cfg, s.workers[w])
  {
    hide CheckStatement, WriteStatement, AroundStatement;
    hide KeyFree, FindTransfer, HasKey;
  }

  lemma ChecksRunOut(cfg: Config, s: State, w: nat, rate: real)
    requires w < |s.workers| && Local(cfg, s, w, rate).Some? && OnChecks(s.workers[w].pc)
    ensures Measure(cfg, Local(cfg, s, w, rate).value) < Measure(cfg, s.workers[w])
  {
    hide StatusStatement, WriteStatement, AroundStatement;
    hide Balance, Exchanged;
  }

  lemma WritesRunOut(cfg: Config, s: State, w: nat, rate: real)
    requires w < |s.workers| && Local(cfg, s, w, rate).Some?
    requires OnWrites(s.workers[w].pc)
    ensures Measure(cfg, Local(cfg, s, w, rate).value) < Measure(cfg, s.workers[w])
  {
    hide StatusStatement, CheckStatement, AroundStatement;
    hide PairCollides, WalletFree, PairFree, KeyFree;
  }

  lemma LowerMeasure(cfg: Config, x: Worker, y: Worker)
    requires y.attempt == x.attempt && Left(y.pc) < Left(x.pc)
    ensures Measure(cfg, y) < Measure(cfg, x)
  {
  }

  lemma ReconcilingRunsOut(cfg: Config, s: State, w: nat, rate: real)
    requires w < |s.workers| && Local(cfg, s, w, rate).Some? && Reconciling(s.workers[w].pc)
    ensures Measure(cfg, Local(cfg, s, w, rate).value) < Measure(cfg, s.workers[w])
  {
    hide StatusStatement, CheckStatement, WriteStatement;
    hide Measure, FindTransfer, HasKey;
    LowerMeasure(cfg, s.workers[w], Local(cfg, s, w, rate).value);
  }

  lemma OthersRunOut(cfg: Config, s: State, w: nat, rate: real)
    requires w < |s.workers| && Local(cfg, s, w, rate).Some? && !Reconciling(s.workers[w].pc)
    requires !OnStatus(s.workers[w].pc) && !OnChecks(s.workers[w].pc) && !OnWrites(s.workers[w].pc)
    ensures Measure(cfg, Local(cfg, s, w, rate).value) < Measure(cfg, s.workers[w])
  {
    hide StatusStatement, CheckStatement, WriteStatement;
    hide FindTransfer, HasKey, BackoffMs, AfterError;
  }

  lemma LocalRunsOut(cfg: Config, s: State, w: nat, rate: real)
    requires w < |s.workers| && Local(cfg, s, w, rate).Some?
    ensures Measure(cfg, Local(cfg, s, w, rate).value) < Measure(cfg, s.workers[w])
  {
    hide Measure, StatusStatement, CheckStatement, WriteStatement, AroundStatement;
    var pc := s.workers[w].pc;
    if OnStatus(pc) {
      StatusRunsOut(cfg, s, w, rate);
    } else if OnChecks(pc) {
      ChecksRunOut(cfg, s, w, rate);
    } else if OnWrites(pc) {
      WritesRunOut(cfg, s, w, rate);
    } else if Reconciling(pc) {
      ReconcilingRunsOut(cfg, s, w, rate);
    } else {
      OthersRunOut(cfg, s, w, rate);
    }
  }

  lemma VisibleRunsOut(cfg: Config, s: State, w: nat, rate: real)
    requires w < |s.workers| && Statement(cfg, s, w, rate).Some?
    requires VisibleStatement(s.workers[w].pc) || s.workers[w].pc.CommitNew?
    ensures Measure(cfg, Statement(cfg, s, w, rate).value.workers[w]) < Measure(cfg, s.workers[w])
  {
    hide Local, AllFree, MayUpdate, CommitRecord, UpdateRecord, Measure, Bump;
    LowerMeasure(cfg, s.workers[w], Statement(cfg, s, w, rate).value.workers[w]);
  }

  /** Every statement brings a call strictly nearer its end, so it ends after at most 30 per attempt. */
  lemma StatementsRunOut(cfg: Config, s: State, w: nat, rate: real)
    requires w < |s.workers| && Statement(cfg, s, w, rate).Some?
    ensures Measure(cfg, Statement(cfg, s, w, rate).value.workers[w]) < Measure(cfg, s.workers[w])
  {
    hide Local, AllFree, MayUpdate, Measure;
    if VisibleStatement(s.workers[w].pc) || s.workers[w].pc.CommitNew? {
      VisibleRunsOut(cfg, s, w, rate);
    } else {
      LocalRunsOut(cfg, s, w, rate);
    }
  }

  lemma MeasureBounds(cfg: Config, r: Run, i: nat, w: nat)
    requires IsRun(cfg, r) && i < |r.states| && w < |r.states[i].workers|
    requires !r.states[i].workers[w].pc.Idle? && cfg.maxRetries >= 0
    ensures 0 <= Measure(cfg, r.states[i].workers[w]) <= 30 * (cfg.maxRetries + 1)
  {
    hide Pow2;
    RetriesAndSleeps(cfg, r, i, w);
  }
}
