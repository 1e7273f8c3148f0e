/** The status protocol: a record's compare-and-set and row lock keep its key's transfers apart. */
module StatusLayer {
  import opened Wrappers
  import opened Tables
  import opened TransferProtocol
  import opened History
  import opened Invariant
  import IndexLayer

  type Statuses = map<Key, IdemRecord>

  /** The worker holds the row lock of its record, which is committed as pending. */
  predicate Owning(idem: Statuses, x: Worker)
  {
    x.locked && KeyOf(x) in idem && idem[KeyOf(x)].status.Pending?
  }

  /** The states of a transaction that go on only under the lock. */
  predicate UnderLock(pc: Pc)
  {
    match pc
    case FindLedger | EnsureRecord | CheckOwner | ReadBalance | ReadFrom | ReadTo | Convert
       | InsertPair | InsertTransfer | BumpFrom | BumpTo | MarkDone | CommitNew => true
    case ReconcileTransfer(inside) => inside
    case ReconcileLedger(inside) => inside
    case ReconcileMark(inside, _) => inside
    case _ => false
  }

  predicate Names(h: seq<Commit>, k: Key, found: Option<nat>)
  {
    found.Some? && FindTransfer(TransfersOf(h), k) == found
  }

  function Done(found: Option<nat>): IdemRecord
  {
    IdemRecord(Completed, TransferRef(found))
  }

  predicate StatusWorker(idem: Statuses, h: seq<Commit>, jobs: set<Payload>, x: Worker)
  {
    var k := KeyOf(x);
    && (!x.pc.Idle? ==> x.job in jobs)
    && (UnderLock(x.pc) ==> Owning(idem, x))
    && (x.pc.FindExisting? ==> Owning(idem, x) || KeyUsed(h, k))
    && (x.pc.MarkExisting? ==> Names(h, k, x.pc.found))
    && (x.pc.CommitExisting? ==> Names(h, k, x.pc.found) && x.locked && x.write == Some(Done(x.pc.found)))
    && (x.pc.CommitNew? ==> x.write == Some(Done(Some(x.transferId))))
    && (x.pc.ReconcileMark? ==> !x.pc.inside && (Names(h, k, x.pc.found) || (x.pc.found.None? && KeyUsed(h, k))))
    && (Reconciling(x.pc) ==> x.job.txId.Some?)
    && !(x.failed && x.pc.InsertTransfer?)
  }

  /** A transaction commits its record as completed, with the transfer it has found or made. */
  lemma CommitsDone(idem: Statuses, h: seq<Commit>, jobs: set<Payload>, x: Worker)
    requires StatusWorker(idem, h, jobs, x) && (x.pc.CommitNew? || x.pc.CommitExisting?)
    ensures x.write.Some? && x.write.value.status.Completed? && x.write.value != Done(None)
  {
  }

  /** One idempotency record against the log. */
  predicate RecordOk(idem: Statuses, h: seq<Commit>, k: Key)
  {
    && (KeyUsed(h, k) ==> k in idem && (idem[k].status.Completed? || idem[k].status.Failed?))
    && (k in idem ==> !idem[k].status.Processing?)
    && (k in idem && idem[k].status.Completed? ==>
          && KeyUsed(h, k) && idem[k].response.TransferRef?
          && (Names(h, k, idem[k].response.id) || idem[k].response.id.None?))
  }

  predicate KeysApart(v: Worker, w: Worker)
  {
    v.locked && w.locked ==> KeyOf(v) != KeyOf(w)
  }

  ghost predicate StatusInv(s: State)
  {
    && DistinctKeys(s.history)
    && (forall k :: RecordOk(s.db.idem, s.history, k))
    && (forall w :: 0 <= w < |s.workers| ==> StatusWorker(s.db.idem, s.history, s.jobs, s.workers[w]))
    && (forall v, w :: 0 <= v < |s.workers| && 0 <= w < |s.workers| && v != w
                       ==> KeysApart(s.workers[v], s.workers[w]))
  }

  // ---------- what a local statement does ----------

  /** Everything a local statement needs to know about its worker and the tables. */
  ghost predicate StatusMove(cfg: Config, seed: Db, s: State, w: nat, rate: real)
  {
    && w < |s.workers| && Local(cfg, s, w, rate).Some?
    && s.db.transfers == TransfersOf(s.history)
    && var x := s.workers[w];
    && FrameOk(cfg, x) && (HasKey(s.db.ledger, KeyOf(x)) <==> KeyUsed(s.history, KeyOf(x)))
    && (PairCollides(cfg.uniqueIndex, s.db.ledger, DebitRow(x.job), CreditRow(x.job, x.credit))
        ==> s.workers[w].job.txId.Some? || KeyUsed(s.history, KeyOf(s.workers[w])))
    && RecordOk(s.db.idem, s.history, KeyOf(s.workers[w]))
    && StatusWorker(s.db.idem, s.history, s.jobs, s.workers[w])
  }

  lemma StatusOnStatus(cfg: Config, seed: Db, s: State, w: nat, rate: real)
    requires StatusMove(cfg, seed, s, w, rate) && OnStatus(s.workers[w].pc)
    ensures StatusWorker(s.db.idem, s.history, s.jobs, Local(cfg, s, w, rate).value)
  {
    hide CheckStatement, WriteStatement, AroundStatement;
    hide TransfersOf, FindTransfer, Balance, Exchanged, PairCollides, LoopOk, WalletFree, PairFree, KeyFree, HasKey,
         KeyUsed, SleptBefore, BackoffMs;
    FoundIffUsed(s.history, KeyOf(s.workers[w]));
  }

  lemma StatusOnChecks(cfg: Config, seed: Db, s: State, w: nat, rate: real)
    requires StatusMove(cfg, seed, s, w, rate) && OnChecks(s.workers[w].pc)
    ensures StatusWorker(s.db.idem, s.history, s.jobs, Local(cfg, s, w, rate).value)
  {
    hide StatusStatement, WriteStatement, AroundStatement;
    hide TransfersOf, FindTransfer, Balance, Exchanged, PairCollides, LoopOk, WalletFree, PairFree, KeyFree, HasKey,
         KeyUsed, SleptBefore, BackoffMs;
    FoundIffUsed(s.history, KeyOf(s.workers[w]));
  }

  lemma StatusOnWrites(cfg: Config, seed: Db, s: State, w: nat, rate: real)
    requires StatusMove(cfg, seed, s, w, rate) && OnWrites(s.workers[w].pc)
    ensures StatusWorker(s.db.idem, s.history, s.jobs, Local(cfg, s, w, rate).value)
  {
    hide StatusStatement, CheckStatement, AroundStatement;
    hide TransfersOf, FindTransfer, Balance, Exchanged, PairCollides, LoopOk, WalletFree, PairFree, KeyFree, HasKey,
         KeyUsed, SleptBefore, BackoffMs;
    FoundIffUsed(s.history, KeyOf(s.workers[w]));
  }

  lemma StatusAround(cfg: Config, seed: Db, s: State, w: nat, rate: real)
    requires StatusMove(cfg, seed, s, w, rate)
    requires !OnStatus(s.workers[w].pc) && !OnChecks(s.workers[w].pc) && !OnWrites(s.workers[w].pc)
    ensures StatusWorker(s.db.idem, s.history, s.jobs, Local(cfg, s, w, rate).value)
  {
    hide StatusStatement, CheckStatement, WriteStatement;
    hide TransfersOf, FindTransfer, Balance, Exchanged, PairCollides, LoopOk, WalletFree, PairFree, KeyFree, HasKey,
         KeyUsed, SleptBefore, BackoffMs;
    FoundIffUsed(s.history, KeyOf(s.workers[w]));
  }

  lemma StatusLocal(cfg: Config, seed: Db, s: State, w: nat, rate: real)
    requires StatusMove(cfg, seed, s, w, rate)
    ensures StatusWorker(s.db.idem, s.history, s.jobs, Local(cfg, s, w, rate).value)
  {
    hide Local, StatusWorker, RecordOk, FrameOk, PairCollides;
    var pc := s.workers[w].pc;
    if OnStatus(pc) {
      StatusOnStatus(cfg, seed, s, w, rate);
    } else if OnChecks(pc) {
      StatusOnChecks(cfg, seed, s, w, rate);
    } else if OnWrites(pc) {
      StatusOnWrites(cfg, seed, s, w, rate);
    } else {
      StatusAround(cfg, seed, s, w, rate);
    }
  }

  /** A local statement locks a record only when nobody else holds it. */
  lemma LocalLocks(cfg: Config, s: State, w: nat, rate: real)
    requires w < |s.workers| && Local(cfg, s, w, rate).Some?
    ensures var y := Local(cfg, s, w, rate).value;
            y.job == s.workers[w].job && (y.locked ==> s.workers[w].locked || KeyFree(s, w, KeyOf(y)))
  {
    hide TransfersOf, FindTransfer, Balance, Exchanged, PairCollides, WalletFree, PairFree, KeyFree, HasKey,
         SeesRecord, BackoffMs;
    var pc := s.workers[w].pc;
    if OnStatus(pc) {
      hide CheckStatement, WriteStatement, AroundStatement;
    } else if OnChecks(pc) {
      hide StatusStatement, WriteStatement, AroundStatement;
    } else if OnWrites(pc) {
      hide StatusStatement, CheckStatement, AroundStatement;
    } else {
      hide StatusStatement, CheckStatement, WriteStatement;
    }
  }

  lemma StatusPut(s: State, w: nat, y: Worker)
    requires StatusInv(s) && w < |s.workers|
    requires StatusWorker(s.db.idem, s.history, s.jobs, y)
    requires forall v :: 0 <= v < |s.workers| && v != w ==> KeysApart(y, s.workers[v])
    ensures StatusInv(Put(s, w, y))
  {
    hide StatusWorker, RecordOk, TransfersOf, FindTransfer;
    var t := Put(s, w, y);
    forall v, u | 0 <= v < |t.workers| && 0 <= u < |t.workers| && v != u
      ensures KeysApart(t.workers[v], t.workers[u])
    {
      assert KeysApart(s.workers[v], s.workers[u]);
    }
  }

  /** A worker that lets go of its lock, or never had one, is apart from all others. */
  lemma StatusPutUnlocked(s: State, w: nat, y: Worker)
    requires StatusInv(s) && w < |s.workers| && !y.locked
    requires StatusWorker(s.db.idem, s.history, s.jobs, y)
    ensures StatusInv(Put(s, w, y))
  {
    StatusPut(s, w, y);
  }

  lemma LockedHasKey(cfg: Config, seed: Db, s: State)
    requires Inv(cfg, seed, s)
    ensures forall v :: 0 <= v < |s.workers| && s.workers[v].locked ==> s.workers[v].job.key.Some?
  {
    hide KnowsOk, BumpsOk, AnswerOk, LogOk, TablesOk;
    forall v | 0 <= v < |s.workers| && s.workers[v].locked
      ensures s.workers[v].job.key.Some?
    {
      assert WorkerOk(cfg, seed, s.history, s.workers[v]);
    }
  }

  lemma LocalFacts(cfg: Config, seed: Db, s: State, w: nat, rate: real)
    requires Inv(cfg, seed, s) && StatusInv(s) && w < |s.workers| && Local(cfg, s, w, rate).Some?
    ensures StatusMove(cfg, seed, s, w, rate)
  {
    hide KnowsOk, BumpsOk, AnswerOk, Fits, LedgerOf, VersionOf, TransfersOf, Local;
    var x := s.workers[w];
    assert WorkerOk(cfg, seed, s.history, x);
    IndexLayer.LogKeys(cfg, seed, s.history);
    TableKeys(seed.ledger, s.history, KeyOf(x));
    if x.job.txId.None? && PairCollides(cfg.uniqueIndex, s.db.ledger, DebitRow(x.job), CreditRow(x.job, x.credit)) {
      CollidingKey(cfg.uniqueIndex, s.db.ledger, x.job, x.credit);
    }
  }

  /** Without a txId only the key index can refuse a pair. */
  lemma CollidingKey(keyTypeIndex: bool, ledger: seq<LedgerRow>, job: Payload, credit: real)
    requires job.txId.None? && PairCollides(keyTypeIndex, ledger, DebitRow(job), CreditRow(job, credit))
    ensures job.key.Some?
    ensures HasEntry(ledger, job.key.value, Debit) || HasEntry(ledger, job.key.value, Credit)
  {
  }

  lemma StatusLocalKeeps(cfg: Config, seed: Db, s: State, w: nat, rate: real)
    requires Inv(cfg, seed, s) && StatusInv(s) && w < |s.workers| && Local(cfg, s, w, rate).Some?
    ensures StatusInv(Put(s, w, Local(cfg, s, w, rate).value))
  {
    hide Inv, StatusWorker, RecordOk, Local, StatusMove;
    var y := Local(cfg, s, w, rate).value;
    LocalFacts(cfg, seed, s, w, rate);
    StatusLocal(cfg, seed, s, w, rate);
    LocalLocks(cfg, s, w, rate);
    LockedHasKey(cfg, seed, s);
    forall v | 0 <= v < |s.workers| && v != w
      ensures KeysApart(y, s.workers[v])
    {
      assert KeysApart(s.workers[w], s.workers[v]);
    }
    StatusPut(s, w, y);
  }

  // ---------- what a write to the idempotency table does ----------

  /** Writing a record nobody has locked disturbs no worker. */
  lemma SetRecord(cfg: Config, seed: Db, s: State, t: State, k: Key, record: IdemRecord)
    requires Inv(cfg, seed, s) && StatusInv(s) && AllFree(s, k)
    requires t.db.idem == s.db.idem[k := record] && t.jobs == s.jobs && t.workers == s.workers && t.history == s.history
    requires RecordOk(t.db.idem, t.history, k)
    ensures StatusInv(t)
  {
    hide Inv, TransfersOf, FindTransfer, KeyUsed;
    LockedHasKey(cfg, seed, s);
    forall j
      ensures RecordOk(t.db.idem, t.history, j)
    {
      if j != k {
        assert RecordOk(s.db.idem, s.history, j);
      }
    }
    forall v | 0 <= v < |t.workers|
      ensures StatusWorker(t.db.idem, t.history, t.jobs, t.workers[v])
    {
      assert StatusWorker(s.db.idem, s.history, s.jobs, s.workers[v]);
      assert !HoldsKey(s.workers[v], k);
    }
  }

  /** A worker whose key is not the committed one keeps its facts; keys and found ids only accumulate. */
  lemma WorkerAfterCommit(idem: Statuses, h: seq<Commit>, jobs: set<Payload>, c: Commit, record: IdemRecord, x: Worker)
    requires StatusWorker(idem, h, jobs, x) && (x.locked ==> KeyOf(x) != c.key)
    ensures StatusWorker(idem[c.key := record], h + [c], jobs, x)
  {
    hide TransfersOf, FindTransfer, KeyUsed;
    NamesAppend(h, c, KeyOf(x));
    KeyUsedAppend(h, c, KeyOf(x));
  }

  lemma NamesAppend(h: seq<Commit>, c: Commit, k: Key)
    ensures forall found :: Names(h, k, found) ==> Names(h + [c], k, found)
    ensures c.key == k && !KeyUsed(h, k) ==> Names(h + [c], k, Some(c.transferId))
  {
    assert TransfersOf(h + [c]) == TransfersOf(h) + [RowOf(c)];
    FoundIffUsed(h, k);
    if FindTransfer(TransfersOf(h), k).Some? {
      FoundStays(TransfersOf(h), RowOf(c), k);
    }
    assert TransfersOf(h + [c])[..|h|] == TransfersOf(h);
  }

  lemma RecordAfterCommit(idem: Statuses, h: seq<Commit>, c: Commit, k: Key)
    requires RecordOk(idem, h, k) && !KeyUsed(h, c.key)
    ensures RecordOk(idem[c.key := Done(Some(c.transferId))], h + [c], k)
  {
    hide TransfersOf, FindTransfer, KeyUsed;
    NamesAppend(h, c, k);
    KeyUsedAppend(h, c, k);
  }

  lemma CommitKeepsStatus(cfg: Config, seed: Db, s: State, w: nat, pc: Pc)
    requires Inv(cfg, seed, s) && StatusInv(s) && w < |s.workers| && s.workers[w].pc.CommitNew?
    requires pc.Threw? || pc.SendEmail?
    ensures StatusInv(CommitTransfer(s, w, pc))
  {
    hide Inv, TransfersOf, FindTransfer, KeyUsed;
    var x := s.workers[w];
    var c := CommitLog(x);
    var t := CommitTransfer(s, w, pc);
    assert StatusWorker(s.db.idem, s.history, s.jobs, x);
    assert RecordOk(s.db.idem, s.history, c.key);
    forall k
      ensures RecordOk(t.db.idem, t.history, k)
    {
      assert RecordOk(s.db.idem, s.history, k);
      RecordAfterCommit(s.db.idem, s.history, c, k);
    }
    forall v | 0 <= v < |t.workers|
      ensures StatusWorker(t.db.idem, t.history, t.jobs, t.workers[v])
    {
      if v != w {
        assert StatusWorker(s.db.idem, s.history, s.jobs, s.workers[v]) && KeysApart(s.workers[v], x);
        WorkerAfterCommit(s.db.idem, s.history, s.jobs, c, x.write.value, s.workers[v]);
      }
    }
    FreshKeyDistinct(s.history, c);
    forall v, u | 0 <= v < |t.workers| && 0 <= u < |t.workers| && v != u
      ensures KeysApart(t.workers[v], t.workers[u])
    {
      assert KeysApart(s.workers[v], s.workers[u]);
    }
  }

  lemma FreshKeyDistinct(h: seq<Commit>, c: Commit)
    requires DistinctKeys(h) && !KeyUsed(h, c.key)
    ensures DistinctKeys(h + [c])
  {
  }

  /** The existing-transfer path writes the id it found under its own lock. */
  lemma CommitStatusKeeps(cfg: Config, seed: Db, s: State, w: nat, pc: Pc)
    requires Inv(cfg, seed, s) && StatusInv(s) && w < |s.workers| && s.workers[w].pc.CommitExisting?
    requires pc.Threw? || pc.SendEmail?
    ensures StatusInv(CommitStatus(s, w, pc))
  {
    hide Inv, TransfersOf, FindTransfer;
    var x := s.workers[w];
    var k := KeyOf(x);
    var t := CommitStatus(s, w, pc);
    FoundIffUsed(s.history, k);
    assert StatusWorker(s.db.idem, s.history, s.jobs, x);
    forall j
      ensures RecordOk(t.db.idem, t.history, j)
    {
      assert RecordOk(s.db.idem, s.history, j);
    }
    forall v | 0 <= v < |t.workers|
      ensures StatusWorker(t.db.idem, t.history, t.jobs, t.workers[v])
    {
      assert StatusWorker(s.db.idem, s.history, s.jobs, s.workers[v]);
      if v != w {
        assert KeysApart(s.workers[v], x);
      }
    }
    forall v, u | 0 <= v < |t.workers| && 0 <= u < |t.workers| && v != u
      ensures KeysApart(t.workers[v], t.workers[u])
    {
      assert KeysApart(s.workers[v], s.workers[u]);
    }
  }

  /** Reconciliation outside the transaction: an id it found, or none after a txId collision. */
  lemma ReconcileMarkKeeps(cfg: Config, seed: Db, s: State, w: nat)
    requires Inv(cfg, seed, s) && StatusInv(s) && w < |s.workers|
    requires s.workers[w].pc.ReconcileMark? && MayUpdate(s, KeyOf(s.workers[w]))
    ensures StatusInv(Statement(cfg, s, w, 1.0).value)
  {
    hide Inv, TransfersOf, FindTransfer;
    var x := s.workers[w];
    var k := KeyOf(x);
    var t := Statement(cfg, s, w, 1.0).value;
    var record := Done(x.pc.found);
    FoundIffUsed(s.history, k);
    assert StatusWorker(s.db.idem, s.history, s.jobs, x);
    assert RecordOk(s.db.idem, s.history, k);
    ReconcilerHasKey(cfg, seed, s, w);
    var m := s.(db := UpdateRecord(s.db, k, record));
    SetRecord(cfg, seed, s, m, k, record);
    StatusPutUnlocked(m, w, t.workers[w]);
  }

  lemma ReconcilerHasKey(cfg: Config, seed: Db, s: State, w: nat)
    requires Inv(cfg, seed, s) && w < |s.workers| && Reconciling(s.workers[w].pc)
    ensures s.workers[w].job.key.Some?
    ensures !InTx(s.workers[w].pc) ==> !s.workers[w].locked
  {
    hide KnowsOk, BumpsOk, AnswerOk, LogOk, TablesOk;
    assert WorkerOk(cfg, seed, s.history, s.workers[w]);
  }

  lemma FailureKeeps(cfg: Config, seed: Db, s: State, k: Key)
    requires Inv(cfg, seed, s) && StatusInv(s) && MayUpdate(s, k)
    ensures StatusInv(s.(db := UpdateRecord(s.db, k, IdemRecord(Failed, Reason))))
  {
    hide Inv, TransfersOf, FindTransfer, StatusWorker;
    if k in s.db.idem {
      var t := s.(db := UpdateRecord(s.db, k, IdemRecord(Failed, Reason)));
      assert RecordOk(s.db.idem, s.history, k);
      SetRecord(cfg, seed, s, t, k, IdemRecord(Failed, Reason));
    }
  }

  lemma RecordFailureKeeps(cfg: Config, seed: Db, s: State, w: nat, rate: real)
    requires Inv(cfg, seed, s) && StatusInv(s) && w < |s.workers| && s.workers[w].pc.RecordFailure?
    requires Statement(cfg, s, w, rate).Some?
    ensures StatusInv(Statement(cfg, s, w, rate).value)
  {
    hide RecordOk, TransfersOf, FindTransfer, KnowsOk, BumpsOk, AnswerOk, LogOk, TablesOk;
    var x := s.workers[w];
    var t := Statement(cfg, s, w, rate).value;
    var m := s.(db := t.db);
    assert WorkerOk(cfg, seed, s.history, x);
    assert StatusWorker(s.db.idem, s.history, s.jobs, x);
    if x.job.key.Some? {
      FailureKeeps(cfg, seed, s, KeyOf(x));
    }
    StatusPutUnlocked(m, w, t.workers[w]);
  }

  lemma InsertTransferKeeps(cfg: Config, seed: Db, s: State, w: nat, rate: real)
    requires Inv(cfg, seed, s) && StatusInv(s) && w < |s.workers| && s.workers[w].pc.InsertTransfer?
    ensures StatusInv(Statement(cfg, s, w, rate).value)
  {
    hide Inv, RecordOk, TransfersOf, FindTransfer;
    var x := s.workers[w];
    var t := Statement(cfg, s, w, rate).value;
    assert StatusWorker(s.db.idem, s.history, s.jobs, x);
    var m := s.(db := t.db);
    forall v | 0 <= v < |s.workers| && v != w
      ensures KeysApart(t.workers[w], s.workers[v])
    {
      assert KeysApart(x, s.workers[v]);
    }
    StatusPut(m, w, t.workers[w]);
  }

  // ---------- all steps ----------

  lemma StatusGo(cfg: Config, seed: Db, s: State, w: nat, rate: real)
    requires Inv(cfg, seed, s) && StatusInv(s) && w < |s.workers| && Statement(cfg, s, w, rate).Some?
    ensures StatusInv(Statement(cfg, s, w, rate).value)
  {
    hide Inv, StatusInv, Local;
    match s.workers[w].pc {
      case CommitNew => CommitKeepsStatus(cfg, seed, s, w, SendEmail(Some(s.workers[w].transferId)));
      case CommitExisting(found) => CommitStatusKeeps(cfg, seed, s, w, SendEmail(found));
      case ReconcileMark(_, _) => ReconcileMarkKeeps(cfg, seed, s, w);
      case RecordFailure => RecordFailureKeeps(cfg, seed, s, w, rate);
      case InsertTransfer => InsertTransferKeeps(cfg, seed, s, w, rate);
      case _ => StatusLocalKeeps(cfg, seed, s, w, rate);
    }
  }

  lemma JobsGrow(s: State, job: Payload)
    requires StatusInv(s)
    ensures StatusInv(s.(jobs := s.jobs + {job}))
  {
    hide TransfersOf, FindTransfer, KeyUsed;
    var t := s.(jobs := s.jobs + {job});
    forall k
      ensures RecordOk(t.db.idem, t.history, k)
    {
      assert RecordOk(s.db.idem, s.history, k);
    }
    forall w | 0 <= w < |t.workers|
      ensures StatusWorker(t.db.idem, t.history, t.jobs, t.workers[w])
    {
      assert StatusWorker(s.db.idem, s.history, s.jobs, s.workers[w]);
    }
  }

  lemma StatusStep(cfg: Config, seed: Db, s: State, step: Step)
    requires cfg.statusTrusted && Inv(cfg, seed, s) && StatusInv(s) && Next(cfg, s, step).Some?
    ensures StatusInv(Next(cfg, s, step).value)
  {
    hide Inv, StatusInv, RecordOk, Statement;
    var t := Next(cfg, s, step).value;
    match step {
      case Go(w, rate) => StatusGo(cfg, seed, s, w, rate);
      case CreateRecord(k) => CreateKeeps(cfg, seed, s, k);
      case AddJob(job) => JobsGrow(s, job);
      case FailureWrite(k) => FailureKeeps(cfg, seed, s, k);
      case Start(w, job) => StatusPutUnlocked(s, w, Begin(cfg, job));
      case Break(w) => StoppedKeeps(s, w, Threw);
      case Crash(w) => StoppedKeeps(s, w, Idle);
      case LoseAck(w) =>
        if s.workers[w].pc.CommitNew? {
          CommitKeepsStatus(cfg, seed, s, w, Threw);
        } else {
          CommitStatusKeeps(cfg, seed, s, w, Threw);
        }
      case SetStatuses(_) =>
    }
  }

  lemma StoppedKeeps(s: State, w: nat, pc: Pc)
    requires StatusInv(s) && w < |s.workers|
    requires pc.Idle? || (pc.Threw? && !Resting(s.workers[w].pc))
    ensures StatusInv(Put(s, w, EndTx(s.workers[w], pc)))
  {
    hide RecordOk;
    assert StatusWorker(s.db.idem, s.history, s.jobs, s.workers[w]);
    StatusPutUnlocked(s, w, EndTx(s.workers[w], pc));
  }

  lemma CreateKeeps(cfg: Config, seed: Db, s: State, k: Key)
    requires Inv(cfg, seed, s) && StatusInv(s) && AllFree(s, k) && k !in s.db.idem
    ensures StatusInv(s.(db := s.db.(idem := s.db.idem[k := IdemRecord(Pending, Empty)])))
  {
    hide Inv, TransfersOf, FindTransfer, StatusWorker;
    var t := s.(db := s.db.(idem := s.db.idem[k := IdemRecord(Pending, Empty)]));
    assert RecordOk(s.db.idem, s.history, k);
    SetRecord(cfg, seed, s, t, k, IdemRecord(Pending, Empty));
  }

  lemma StatusInit(cfg: Config, s: State)
    requires Init(s)
    ensures StatusInv(s)
  {
    hide TransfersOf, FindTransfer;
  }

  /** Without any index, the status protocol alone keeps keys apart and records in step with the log. */
  lemma {:induction false} StatusRun(cfg: Config, r: Run, i: nat)
    requires cfg.statusTrusted && IsRun(cfg, r) && i < |r.states|
    ensures StatusInv(r.states[i])
  {
    hide Inv, StatusInv;
    if i == 0 {
      StatusInit(cfg, r.states[0]);
    } else {
      StatusRun(cfg, r, i - 1);
      RunOk(cfg, r, i - 1);
      assert Next(cfg, r.states[i - 1], r.steps[i - 1]) == Some(r.states[i]);
      StatusStep(cfg, r.states[0].db, r.states[i - 1], r.steps[i - 1]);
    }
  }
}
