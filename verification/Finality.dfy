/** What can no longer change: rows once written, and the fate of a key once its record has left pending. */
module Finality {
  import opened Wrappers
  import opened Tables
  import opened TransferProtocol
  import opened StatusLayer
  import opened Provenance
  import Bank
  import Guarantees

  /** The ledger and the transfer table are only ever appended to. */
  lemma {:induction false} AppendOnly(cfg: Config, r: Run, i: nat, j: nat)
    requires IsRun(cfg, r) && i <= j < |r.states|
    ensures r.states[i].db.ledger <= r.states[j].db.ledger
    ensures r.states[i].db.transfers <= r.states[j].db.transfers
  {
    hide Next, Init;
    if i < j {
      AppendOnly(cfg, r, i, j - 1);
      assert Next(cfg, r.states[j - 1], r.steps[j - 1]) == Some(r.states[j]);
      StepAppends(cfg, r.states[j - 1], r.steps[j - 1]);
    }
  }

  lemma StepAppends(cfg: Config, s: State, step: Step)
    requires Next(cfg, s, step).Some?
    ensures var t := Next(cfg, s, step).value;
            s.db.ledger <= t.db.ledger && s.db.transfers <= t.db.transfers
  {
    if Bank.Committer(s, step).None? {
      Bank.OthersStutter(cfg, s, step);
    }
  }

  lemma OtherKeyNotFound(t: seq<TransferRow>, row: TransferRow, k: Key)
    requires row.key != k
    ensures FindTransfer(t + [row], k) == FindTransfer(t, k)
  {
    assert (t + [row])[..|t|] == t;
  }

  /** A step can only give a key a transfer while the key's record is pending. */
  lemma OnlyPendingKeysArePaid(cfg: Config, s: State, step: Step, k: Key)
    requires StatusInv(s) && Next(cfg, s, step).Some?
    requires k in s.db.idem && !s.db.idem[k].status.Pending?
    ensures FindTransfer(Next(cfg, s, step).value.db.transfers, k) == FindTransfer(s.db.transfers, k)
  {
    hide FindTransfer, RecordOk, Local;
    match Bank.Committer(s, step) {
      case None => Bank.OthersStutter(cfg, s, step);
      case Some(w) =>
        var x := s.workers[w];
        assert StatusWorker(s.db.idem, s.history, s.jobs, x);
        var row := TransferRow(x.transferId, KeyOf(x), x.job.from, x.job.to, x.job.amount);
        OtherKeyNotFound(s.db.transfers, row, k);
    }
  }

  /**
   Once a key's record is no longer pending, no later step, retry or duplicate job gives the key a
   transfer it did not have: whatever the transfer table says of the key then, it says for good.
   */
  lemma {:induction false} SettledForGood(cfg: Config, r: Run, i: nat, j: nat, k: Key)
    requires IsRun(cfg, r) && i <= j < |r.states| && cfg.statusTrusted
    requires k in r.states[i].db.idem && !r.states[i].db.idem[k].status.Pending?
    ensures FindTransfer(r.states[j].db.transfers, k) == FindTransfer(r.states[i].db.transfers, k)
  {
    hide StatusInv, Next, Init, FindTransfer;
    if i < j {
      SettledForGood(cfg, r, i, j - 1, k);
      StatusRun(cfg, r, j - 1);
      Guarantees.NeverPendingAgain(cfg, r, i, j - 1, k);
      assert Next(cfg, r.states[j - 1], r.steps[j - 1]) == Some(r.states[j]);
      OnlyPendingKeysArePaid(cfg, r.states[j - 1], r.steps[j - 1], k);
    }
  }

  /** After the failure handler has run for a key without a transfer, no retry of its job ever pays it. */
  lemma FailureHandlerIsFinal(cfg: Config, r: Run, i: nat, j: nat, k: Key)
    requires IsRun(cfg, r) && i < j < |r.states| && cfg.statusTrusted && r.steps[i] == FailureWrite(k)
    requires k in r.states[i].db.idem && FindTransfer(r.states[i].db.transfers, k).None?
    ensures FindTransfer(r.states[j].db.transfers, k).None?
  {
    hide FindTransfer;
    assert Next(cfg, r.states[i], r.steps[i]) == Some(r.states[i + 1]);
    SettledForGood(cfg, r, i + 1, j, k);
  }

  // ---------- what a failed record says ----------

  /** The step that fails a record gives its key no transfer. */
  lemma FailingPaysNothing(cfg: Config, s: State, step: Step, k: Key)
    requires StatusInv(s) && Next(cfg, s, step).Some?
    requires var t := Next(cfg, s, step).value; k in t.db.idem && t.db.idem[k].status.Failed?
    ensures FindTransfer(Next(cfg, s, step).value.db.transfers, k) == FindTransfer(s.db.transfers, k)
  {
    hide FindTransfer, RecordOk, Local;
    match Bank.Committer(s, step) {
      case None => Bank.OthersStutter(cfg, s, step);
      case Some(w) =>
        var x := s.workers[w];
        assert StatusWorker(s.db.idem, s.history, s.jobs, x);
        OtherKeyNotFound(s.db.transfers, TransferRow(x.transferId, KeyOf(x), x.job.from, x.job.to, x.job.amount), k);
    }
  }

  predicate HasStatus(s: State, k: Key, status: Status)
  {
    k in s.db.idem && s.db.idem[k].status == status
  }

  /**
   When a record becomes failed, its key stays without a transfer from then on if and only if the record was
   still pending: the guard the write does not have.
   */
  lemma FailedSays(cfg: Config, r: Run, i: nat, j: nat, k: Key)
    requires IsRun(cfg, r) && i < j < |r.states| && cfg.statusTrusted
    requires k in r.states[i].db.idem && !r.states[i].db.idem[k].status.Failed? && HasStatus(r.states[i + 1], k, Failed)
    ensures FindTransfer(r.states[j].db.transfers, k).None? <==> r.states[i].db.idem[k].status.Pending?
  {
    hide FindTransfer, HasKey, Next, Init, StatusInv, HasPayer, HasCollider;
    assert Next(cfg, r.states[i], r.steps[i]) == Some(r.states[i + 1]);
    StatusRun(cfg, r, i);
    Guarantees.StatusTellsTheTruth(cfg, r, i, k);
    FailingPaysNothing(cfg, r.states[i], r.steps[i], k);
    SettledForGood(cfg, r, i + 1, j, k);
  }

  /** The worker's `failed` handler, and the failure a permanent error records, in those terms. */
  lemma FailureWriteSays(cfg: Config, r: Run, i: nat, j: nat, k: Key)
    requires IsRun(cfg, r) && i < j < |r.states| && cfg.statusTrusted
    requires k in r.states[i].db.idem && !r.states[i].db.idem[k].status.Failed?
    requires || r.steps[i] == FailureWrite(k)
             || (r.steps[i].Go? && r.steps[i].w < |r.states[i].workers|
                 && r.states[i].workers[r.steps[i].w].pc.RecordFailure?
                 && r.states[i].workers[r.steps[i].w].job.key == Some(k))
    ensures FindTransfer(r.states[j].db.transfers, k).None? <==> r.states[i].db.idem[k].status.Pending?
  {
    hide FindTransfer, HasKey, Local, Init;
    assert Next(cfg, r.states[i], r.steps[i]) == Some(r.states[i + 1]);
    FailedSays(cfg, r, i, j, k);
  }

  lemma PayingCompletes(cfg: Config, s: State, step: Step, k: Key)
    requires StatusInv(s) && Next(cfg, s, step).Some?
    requires FindTransfer(s.db.transfers, k).None? && FindTransfer(Next(cfg, s, step).value.db.transfers, k).Some?
    ensures HasStatus(Next(cfg, s, step).value, k, Completed)
  {
    hide FindTransfer, RecordOk, Local;
    match Bank.Committer(s, step) {
      case None => Bank.OthersStutter(cfg, s, step);
      case Some(w) =>
        var x := s.workers[w];
        assert StatusWorker(s.db.idem, s.history, s.jobs, x);
        if KeyOf(x) != k {
          OtherKeyNotFound(s.db.transfers, TransferRow(x.transferId, KeyOf(x), x.job.from, x.job.to, x.job.amount), k);
        }
    }
  }

  /** A key with a transfer had a completed record at some moment. */
  lemma {:induction false} PaidWasCompleted(cfg: Config, r: Run, j: nat, k: Key) returns (i: nat)
    requires IsRun(cfg, r) && j < |r.states| && cfg.statusTrusted && FindTransfer(r.states[j].db.transfers, k).Some?
    ensures i <= j && HasStatus(r.states[i], k, Completed)
  {
    assert j > 0;
    hide FindTransfer, StatusInv, Next, Init;
    if FindTransfer(r.states[j - 1].db.transfers, k).Some? {
      i := PaidWasCompleted(cfg, r, j - 1, k);
    } else {
      StatusRun(cfg, r, j - 1);
      assert Next(cfg, r.states[j - 1], r.steps[j - 1]) == Some(r.states[j]);
      PayingCompletes(cfg, r.states[j - 1], r.steps[j - 1], k);
      i := j;
    }
  }

  /** In any state, a failed record hides a transfer if and only if it was completed before. */
  lemma FailedHidesTransferIff(cfg: Config, r: Run, j: nat, k: Key)
    requires IsRun(cfg, r) && j < |r.states| && cfg.statusTrusted && HasStatus(r.states[j], k, Failed)
    ensures FindTransfer(r.states[j].db.transfers, k).Some?
            <==> exists i :: 0 <= i < j && HasStatus(r.states[i], k, Completed)
  {
    hide FindTransfer, HasKey, IsRun, HasPayer, HasCollider;
    if FindTransfer(r.states[j].db.transfers, k).Some? {
      var i := PaidWasCompleted(cfg, r, j, k);
      assert i < j;
    }
    if i :| 0 <= i < j && HasStatus(r.states[i], k, Completed) {
      Guarantees.StatusTellsTheTruth(cfg, r, i, k);
      SettledForGood(cfg, r, i, j, k);
    }
  }
}
