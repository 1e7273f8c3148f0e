/**
 At-most-once effect, the status invariant and the lock discipline, stated on the tables of any
 reachable state.
 */
module Guarantees {
  import opened Wrappers
  import opened Tables
  import opened TransferProtocol
  import opened History
  import opened Invariant
  import opened IndexLayer
  import opened StatusLayer
  import opened Provenance

  predicate DebitOf(t: TransferRow, row: LedgerRow)
  {
    row.key == Some(t.key) && row.kind.Debit? && row.wallet == t.from && row.amount == t.amount
  }

  /** The credited amount is the transfer's own unless the two wallets differ in currency. */
  predicate CreditOf(cfg: Config, t: TransferRow, row: LedgerRow)
  {
    && row.key == Some(t.key) && row.kind.Credit? && row.wallet == t.to && row.amount > 0.0
    && t.from in cfg.wallets && t.to in cfg.wallets
    && (cfg.wallets[t.from].currency == cfg.wallets[t.to].currency ==> row.amount == t.amount)
  }

  predicate OneTransferPerKey(transfers: seq<TransferRow>)
  {
    forall i, j :: 0 <= i < j < |transfers| ==> transfers[i].key != transfers[j].key
  }

  predicate OneEntryPerSide(ledger: seq<LedgerRow>)
  {
    forall i, j :: 0 <= i < j < |ledger| && ledger[i].key.Some? && ledger[i].key == ledger[j].key
                   ==> ledger[i].kind != ledger[j].kind
  }

  predicate Explained(cfg: Config, transfers: seq<TransferRow>, row: LedgerRow)
  {
    row.key.Some? ==>
      && row.txId.None?
      && exists t :: 0 <= t < |transfers| && (DebitOf(transfers[t], row) || CreditOf(cfg, transfers[t], row))
  }

  predicate Booked(cfg: Config, ledger: seq<LedgerRow>, t: TransferRow)
  {
    && (exists i :: 0 <= i < |ledger| && DebitOf(t, ledger[i]))
    && (exists i :: 0 <= i < |ledger| && CreditOf(cfg, t, ledger[i]))
  }

  /**
   Each key has at most one transfer row and at most one ledger row of each kind; a keyed ledger row
   belongs to a transfer row of that key and carries no txId; each transfer row has its debit and its
   credit.
   */
  predicate OneEffectPerKey(cfg: Config, ledger: seq<LedgerRow>, transfers: seq<TransferRow>)
  {
    && OneTransferPerKey(transfers)
    && OneEntryPerSide(ledger)
    && (forall i :: 0 <= i < |ledger| ==> Explained(cfg, transfers, ledger[i]))
    && (forall t :: 0 <= t < |transfers| ==> Booked(cfg, ledger, transfers[t]))
  }

  /** A logged transfer carries its key, no txId, and a credit converted from its amount. */
  predicate Complete(cfg: Config, c: Commit)
  {
    c.job.key == Some(c.key) && c.job.txId.None? && Converted(cfg, c.job, c.credit)
  }

  /** Logged transfers with distinct keys leave exactly their own rows. */
  lemma {:induction false} LogHasOneEffect(cfg: Config, seed: seq<LedgerRow>, h: seq<Commit>)
    requires DistinctKeys(h)
    requires forall i :: 0 <= i < |seed| ==> seed[i].key.None?
    requires forall i :: 0 <= i < |h| ==> Complete(cfg, h[i])
    ensures OneEffectPerKey(cfg, LedgerOf(seed, h), TransfersOf(h))
  {
    if h != [] {
      var m := |h| - 1;
      var g := h[..m];
      var c := h[m];
      LogHasOneEffect(cfg, seed, g);
      TableKeys(seed, g, c.key);
      assert !KeyUsed(g, c.key);
      assert TransfersOf(h) == TransfersOf(g) + [RowOf(c)];
      AddOneEffect(cfg, LedgerOf(seed, g), TransfersOf(g), c);
    }
  }

  lemma MoreTransfers(cfg: Config, transfers: seq<TransferRow>, t: TransferRow, row: LedgerRow)
    requires Explained(cfg, transfers, row)
    ensures Explained(cfg, transfers + [t], row)
  {
    if row.key.Some? {
      var i :| 0 <= i < |transfers| && (DebitOf(transfers[i], row) || CreditOf(cfg, transfers[i], row));
      assert (transfers + [t])[i] == transfers[i];
    }
  }

  lemma MoreEntries(cfg: Config, ledger: seq<LedgerRow>, rows: seq<LedgerRow>, t: TransferRow)
    requires Booked(cfg, ledger, t) && ledger <= rows
    ensures Booked(cfg, rows, t)
  {
    var i :| 0 <= i < |ledger| && DebitOf(t, ledger[i]);
    var j :| 0 <= j < |ledger| && CreditOf(cfg, t, ledger[j]);
    assert DebitOf(t, rows[i]) && CreditOf(cfg, t, rows[j]);
  }

  lemma NewEntriesApart(ledger: seq<LedgerRow>, k: Key, debit: LedgerRow, credit: LedgerRow)
    requires OneEntryPerSide(ledger) && !HasKey(ledger, k)
    requires debit.key == Some(k) && credit.key == Some(k) && debit.kind != credit.kind
    ensures OneEntryPerSide(ledger + [debit, credit])
  {
  }

  lemma AddOneEffect(cfg: Config, ledger: seq<LedgerRow>, transfers: seq<TransferRow>, c: Commit)
    requires OneEffectPerKey(cfg, ledger, transfers)
    requires Complete(cfg, c) && !HasKey(ledger, c.key)
    ensures OneEffectPerKey(cfg, ledger + [DebitRow(c.job), CreditRow(c.job, c.credit)], transfers + [RowOf(c)])
  {
    hide Booked, Explained, OneEntryPerSide, HasKey;
    var rows := ledger + [DebitRow(c.job), CreditRow(c.job, c.credit)];
    var all := transfers + [RowOf(c)];
    NewEntriesApart(ledger, c.key, DebitRow(c.job), CreditRow(c.job, c.credit));
    forall t | 0 <= t < |all|
      ensures Booked(cfg, rows, all[t])
    {
      if t < |transfers| {
        MoreEntries(cfg, ledger, rows, transfers[t]);
      } else {
        NewTransferBooked(cfg, ledger, c);
      }
    }
    forall i | 0 <= i < |rows|
      ensures Explained(cfg, all, rows[i])
    {
      if i < |ledger| {
        MoreTransfers(cfg, transfers, RowOf(c), ledger[i]);
      } else {
        NewEntryExplained(cfg, transfers, c);
      }
    }
    forall t | 0 <= t < |transfers|
      ensures transfers[t].key != c.key
    {
      BookedKey(cfg, ledger, transfers[t]);
    }
  }

  lemma NewTransferBooked(cfg: Config, ledger: seq<LedgerRow>, c: Commit)
    requires Complete(cfg, c)
    ensures Booked(cfg, ledger + [DebitRow(c.job), CreditRow(c.job, c.credit)], RowOf(c))
  {
    var rows := ledger + [DebitRow(c.job), CreditRow(c.job, c.credit)];
    assert DebitOf(RowOf(c), rows[|ledger|]) && CreditOf(cfg, RowOf(c), rows[|ledger| + 1]);
  }

  lemma NewEntryExplained(cfg: Config, transfers: seq<TransferRow>, c: Commit)
    requires Complete(cfg, c)
    ensures Explained(cfg, transfers + [RowOf(c)], DebitRow(c.job))
    ensures Explained(cfg, transfers + [RowOf(c)], CreditRow(c.job, c.credit))
  {
    assert (transfers + [RowOf(c)])[|transfers|] == RowOf(c);
  }

  lemma BookedKey(cfg: Config, ledger: seq<LedgerRow>, t: TransferRow)
    requires Booked(cfg, ledger, t)
    ensures HasKey(ledger, t.key)
  {
    var i :| 0 <= i < |ledger| && DebitOf(t, ledger[i]);
    assert ledger[i].key == Some(t.key);
  }

  lemma StateHasOneEffect(cfg: Config, seed: Db, s: State)
    requires Inv(cfg, seed, s) && DistinctKeys(s.history)
    ensures OneEffectPerKey(cfg, s.db.ledger, s.db.transfers)
  {
    hide LedgerOf, VersionOf, TransfersOf, WorkerOk, OneEffectPerKey;
    forall i | 0 <= i < |s.history|
      ensures Complete(cfg, s.history[i])
    {
      assert Fits(cfg, seed, s.history[..i], s.history[i]);
    }
    LogHasOneEffect(cfg, seed.ledger, s.history);
  }

  /** At most once by the index alone: idempotency statuses may be overwritten at any moment. */
  lemma AtMostOnceByIndex(cfg: Config, r: Run, i: nat)
    requires IsRun(cfg, r) && i < |r.states| && cfg.uniqueIndex
    ensures OneEffectPerKey(cfg, r.states[i].db.ledger, r.states[i].db.transfers)
  {
    hide Inv, OneEffectPerKey;
    RunOk(cfg, r, i);
    IndexRun(cfg, r, i);
    StateHasOneEffect(cfg, r.states[0].db, r.states[i]);
  }

  /** At most once by the status protocol alone: the unique index on the ledger may be missing. */
  lemma AtMostOnceByStatus(cfg: Config, r: Run, i: nat)
    requires IsRun(cfg, r) && i < |r.states| && cfg.statusTrusted
    ensures OneEffectPerKey(cfg, r.states[i].db.ledger, r.states[i].db.transfers)
  {
    hide Inv, OneEffectPerKey;
    RunOk(cfg, r, i);
    StatusRun(cfg, r, i);
    StateHasOneEffect(cfg, r.states[0].db, r.states[i]);
  }

  // ---------- statuses ----------

  predicate OnlyTransfer(transfers: seq<TransferRow>, k: Key, i: nat)
  {
    && i < |transfers| && transfers[i].key == k
    && forall j :: 0 <= j < |transfers| && j != i ==> transfers[j].key != k
  }

  /** What a committed idempotency record says about the other tables. */
  predicate RecordTells(cfg: Config, db: Db, jobs: set<Payload>, k: Key)
    requires k in db.idem
  {
    var record := db.idem[k];
    match record.status
    case Processing => false
    case Pending => !HasKey(db.ledger, k) && FindTransfer(db.transfers, k).None?
    case Completed =>
      HasPayer(cfg, jobs, k) &&
      exists i :: 0 <= i < |db.transfers| && OnlyTransfer(db.transfers, k, i) &&
                  (|| record.response == TransferRef(Some(db.transfers[i].id))
                   || (record.response == TransferRef(None) && HasCollider(cfg, jobs, k)))
    case Failed => HasKey(db.ledger, k) <==> FindTransfer(db.transfers, k).Some?
  }

  /**
   In every reachable state: pending means no row for the key; completed means exactly one transfer, made by
   a job that could pay and named by the response unless a job that collides with itself was queued too;
   processing is never committed; a failed key has ledger rows exactly when it has a transfer; a key with
   rows has a record.
   */
  lemma StatusTellsTheTruth(cfg: Config, r: Run, i: nat, k: Key)
    requires IsRun(cfg, r) && i < |r.states| && cfg.statusTrusted
    ensures var db := r.states[i].db;
            && (k in db.idem ==> RecordTells(cfg, db, r.states[i].jobs, k))
            && (HasKey(db.ledger, k) || FindTransfer(db.transfers, k).Some? ==> k in db.idem)
  {
    hide TransfersOf, LedgerOf, VersionOf, WorkerOk, StatusWorker, HasPayer, HasCollider;
    var s := r.states[i];
    RunOk(cfg, r, i);
    StatusRun(cfg, r, i);
    ForgottenHasCollider(cfg, r, i, k);
    assert RecordOk(s.db.idem, s.history, k);
    LogKeys(cfg, r.states[0].db, s.history);
    TableKeys(r.states[0].db.ledger, s.history, k);
    FoundIffUsed(s.history, k);
    if KeyUsed(s.history, k) {
      OnlyOneFound(s.history, k);
      PaidHasPayer(cfg, r, i, k);
    }
  }

  lemma OnlyOneFound(h: seq<Commit>, k: Key)
    requires DistinctKeys(h) && KeyUsed(h, k)
    ensures exists i :: 0 <= i < |h| && OnlyTransfer(TransfersOf(h), k, i)
                        && FindTransfer(TransfersOf(h), k) == Some(TransfersOf(h)[i].id)
  {
    FoundIffUsed(h, k);
    var id := FindTransfer(TransfersOf(h), k).value;
    var i :| 0 <= i < |h| && TransfersOf(h)[i].id == id && TransfersOf(h)[i].key == k;
    assert OnlyTransfer(TransfersOf(h), k, i);
  }

  /** Once a record has left pending it never comes back, across any number of steps. */
  lemma {:induction false} NeverPendingAgain(cfg: Config, r: Run, i: nat, j: nat, k: Key)
    requires IsRun(cfg, r) && i <= j < |r.states| && cfg.statusTrusted
    requires k in r.states[i].db.idem && !r.states[i].db.idem[k].status.Pending?
    ensures k in r.states[j].db.idem && !r.states[j].db.idem[k].status.Pending?
  {
    hide Inv, StatusInv, Next, Init;
    if i < j {
      NeverPendingAgain(cfg, r, i, j - 1, k);
      StatusRun(cfg, r, j - 1);
      assert Next(cfg, r.states[j - 1], r.steps[j - 1]) == Some(r.states[j]);
      StepLeavesPending(cfg, r.states[j - 1], r.steps[j - 1], k);
    }
  }

  lemma GoLeavesPending(cfg: Config, s: State, w: nat, rate: real, k: Key)
    requires w < |s.workers| && Statement(cfg, s, w, rate).Some?
    requires var x := s.workers[w];
             x.pc.CommitNew? || x.pc.CommitExisting? ==> x.write.Some? && x.write.value.status.Completed?
    requires k in s.db.idem && !s.db.idem[k].status.Pending?
    ensures var t := Statement(cfg, s, w, rate).value;
            k in t.db.idem && !t.db.idem[k].status.Pending?
  {
    hide Local, AllFree, MayUpdate, Bump;
  }

  lemma StepLeavesPending(cfg: Config, s: State, step: Step, k: Key)
    requires cfg.statusTrusted && StatusInv(s) && Next(cfg, s, step).Some?
    requires k in s.db.idem && !s.db.idem[k].status.Pending?
    ensures var t := Next(cfg, s, step).value;
            k in t.db.idem && !t.db.idem[k].status.Pending?
  {
    hide Statement, RecordOk, StatusWorker, TransfersOf, AllFree, MayUpdate, Bump;
    if (step.Go? || step.LoseAck?) && (s.workers[step.w].pc.CommitNew? || s.workers[step.w].pc.CommitExisting?) {
      CommitsDone(s.db.idem, s.history, s.jobs, s.workers[step.w]);
    }
    if step.Go? {
      GoLeavesPending(cfg, s, step.w, step.rate, k);
    }
  }

  // ---------- locks ----------

  /**
   Every transaction that has got past its first look at the tables holds its record's row lock over
   a pending record, and nobody else does; so reconciliation inside the transaction finds nothing, and
   neither path that reports a ledger row without a transfer is ever taken there.
   */
  lemma InsideTheLock(cfg: Config, r: Run, i: nat, w: nat)
    requires IsRun(cfg, r) && i < |r.states| && w < |r.states[i].workers| && cfg.statusTrusted
    ensures var s := r.states[i];
            var x := s.workers[w];
            && x.pc != MarkExisting(None) && x.pc != CommitExisting(None)
            && !(x.pc.ReconcileMark? && x.pc.inside)
            && (UnderLock(x.pc) ==>
                  && HoldsKey(x, KeyOf(x)) && KeyFree(s, w, KeyOf(x))
                  && Owning(s.db.idem, x)
                  && FindTransfer(s.db.transfers, KeyOf(x)).None? && !HasKey(s.db.ledger, KeyOf(x)))
  {
    hide TransfersOf, LedgerOf, VersionOf;
    var s := r.states[i];
    var x := s.workers[w];
    RunOk(cfg, r, i);
    StatusRun(cfg, r, i);
    assert WorkerOk(cfg, r.states[0].db, s.history, x);
    assert StatusWorker(s.db.idem, s.history, s.jobs, x);
    if UnderLock(x.pc) {
      assert RecordOk(s.db.idem, s.history, KeyOf(x));
      LogKeys(cfg, r.states[0].db, s.history);
      TableKeys(r.states[0].db.ledger, s.history, KeyOf(x));
      FoundIffUsed(s.history, KeyOf(x));
      forall v | 0 <= v < |s.workers| && v != w
        ensures !HoldsKey(s.workers[v], KeyOf(x))
      {
        assert KeysApart(x, s.workers[v]);
      }
    }
  }
}
