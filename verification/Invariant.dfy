/**
 What every reachable state satisfies, whatever the configuration: the tables are the ones the commit
 log describes, every worker's remembered values are what it read, and every logged transfer was
 checked against the log as it stood when each value was read.
 */
module Invariant {
  import opened Wrappers
  import opened Tables
  import opened TransferProtocol
  import opened History

  predicate InTx(pc: Pc)
  {
    match pc
    case Idle | RecordFailure | SendFailureEmail | Backoff | SendEmail(_) | Returned(_) | Threw => false
    case ReconcileTransfer(inside) => inside
    case ReconcileLedger(inside) => inside
    case ReconcileMark(inside, _) => inside
    case _ => true
  }

  predicate Reconciling(pc: Pc)
  {
    pc.ReconcileTransfer? || pc.ReconcileLedger? || pc.ReconcileMark?
  }

  /** How far the first-time path has come. */
  function Rank(x: Worker): nat
  {
    if x.failed then 0 else
    match x.pc
    case ReadBalance => 1
    case ReadFrom => 2
    case ReadTo => 3
    case Convert => 4
    case InsertPair => 5
    case InsertTransfer => 5
    case BumpFrom => 5
    case BumpTo => 5
    case MarkDone => 6
    case CommitNew => 6
    case _ => 0
  }

  /** The transfer id a worker is about to give, or gave, as its answer. */
  function Answer(pc: Pc): Option<nat>
  {
    match pc
    case MarkExisting(found) => found
    case CommitExisting(found) => found
    case ReconcileMark(_, found) => found
    case SendEmail(result) => result
    case Returned(result) => result
    case _ => None
  }

  predicate Owns(cfg: Config, job: Payload)
  {
    job.from in cfg.wallets && cfg.wallets[job.from].owner == job.userId
  }

  predicate Converted(cfg: Config, job: Payload, credit: real)
  {
    && credit > 0.0
    && job.from in cfg.wallets && job.to in cfg.wallets
    && (cfg.wallets[job.from].currency == cfg.wallets[job.to].currency ==> credit == job.amount)
  }

  predicate BalanceRead(seed: Db, h: seq<Commit>, job: Payload, balance: real, at: nat)
  {
    && at <= |h|
    && 0.0 < job.amount <= balance
    && balance == Balance(LedgerOf(seed.ledger, h[..at]), job.from)
  }

  predicate VersionRead(seed: Db, h: seq<Commit>, x: WalletId, version: nat, at: nat)
  {
    at <= |h| && version == Ver(VersionOf(seed.version, h[..at]), x)
  }

  function CurrentVersion(seed: Db, h: seq<Commit>, x: WalletId): nat
  {
    Ver(VersionOf(seed.version, h), x)
  }

  /** A commit fits the log before it. */
  predicate Fits(cfg: Config, seed: Db, h: seq<Commit>, c: Commit)
  {
    && c.job.key == Some(c.key) && c.job.txId.None?
    && Owns(cfg, c.job) && Converted(cfg, c.job, c.credit) && c.job.from != c.job.to
    && c.balanceAt <= c.fromAt <= c.toAt
    && BalanceRead(seed, h, c.job, c.balance, c.balanceAt)
    && VersionRead(seed, h, c.job.from, c.fromVersion, c.fromAt)
    && VersionRead(seed, h, c.job.to, c.toVersion, c.toAt)
    && CurrentVersion(seed, h, c.job.from) == c.fromVersion
    && CurrentVersion(seed, h, c.job.to) == c.toVersion
  }

  predicate LoopOk(cfg: Config, x: Worker)
  {
    && x.slept == SleptBefore(x.attempt)
    && (cfg.maxRetries < 0 ==> Resting(x.pc) && Answer(x.pc).None?)
    && (cfg.maxRetries >= 0 ==> x.attempt <= cfg.maxRetries)
    && (x.pc.Backoff? ==> x.attempt < cfg.maxRetries)
  }

  /** The transaction's private data is only in use inside it. */
  predicate FrameOk(cfg: Config, x: Worker)
  {
    && (!x.pc.Idle? ==> LoopOk(cfg, x))
    && (InTx(x.pc) || x.pc.Backoff? || Reconciling(x.pc) ==> x.job.key.Some?)
    && (!InTx(x.pc) ==> !x.locked && x.write.None? && !x.bumpedFrom)
    && (x.failed ==> InTx(x.pc) && (x.pc.InsertTransfer? || Reconciling(x.pc)))
    && (InTx(x.pc) && Reconciling(x.pc) ==> x.failed)
  }

  /** What the first-time path has checked and read so far. */
  predicate KnowsOk(cfg: Config, seed: Db, h: seq<Commit>, x: Worker)
  {
    var r := Rank(x);
    && (r >= 1 ==> Owns(cfg, x.job))
    && (r >= 2 ==> BalanceRead(seed, h, x.job, x.balance, x.balanceAt))
    && (r >= 3 ==> x.balanceAt <= x.fromAt && VersionRead(seed, h, x.job.from, x.fromVersion, x.fromAt))
    && (r >= 4 ==> x.fromAt <= x.toAt && VersionRead(seed, h, x.job.to, x.toVersion, x.toAt)
                   && x.job.to in cfg.wallets)
    && (r >= 5 ==> Converted(cfg, x.job, x.credit))
    && (HasPair(x) ==> x.job.txId.None?)
  }

  /** While a wallet row is locked its committed version is the one that was read. */
  predicate BumpsOk(seed: Db, h: seq<Commit>, x: Worker)
  {
    && (x.bumpedFrom ==> (x.pc.BumpTo? || x.pc.MarkDone? || x.pc.CommitNew?)
                         && CurrentVersion(seed, h, x.job.from) == x.fromVersion)
    && (Rank(x) >= 6 ==> x.bumpedFrom && x.job.from != x.job.to
                         && CurrentVersion(seed, h, x.job.to) == x.toVersion)
  }

  /** A transfer id is only ever answered for a committed transfer of the job's own key. */
  predicate AnswerOk(h: seq<Commit>, x: Worker)
  {
    Answer(x.pc).Some? ==> x.job.key.Some? && HasTransfer(TransfersOf(h), Answer(x.pc).value, KeyOf(x))
  }

  predicate WorkerOk(cfg: Config, seed: Db, h: seq<Commit>, x: Worker)
  {
    FrameOk(cfg, x) && KnowsOk(cfg, seed, h, x) && BumpsOk(seed, h, x) && AnswerOk(h, x)
  }

  ghost predicate WalletsApart(v: Worker, w: Worker)
  {
    forall a :: HoldsWallet(v, a) ==> !HoldsWallet(w, a)
  }

  predicate TablesOk(seed: Db, s: State)
  {
    && s.db.ledger == LedgerOf(seed.ledger, s.history)
    && s.db.transfers == TransfersOf(s.history)
    && s.db.version == VersionOf(seed.version, s.history)
    && (forall i :: 0 <= i < |seed.ledger| ==> seed.ledger[i].key.None?)
  }

  predicate LogOk(cfg: Config, seed: Db, h: seq<Commit>)
  {
    forall i {:trigger Fits(cfg, seed, h[..i], h[i])} :: 0 <= i < |h| ==> Fits(cfg, seed, h[..i], h[i])
  }

  ghost predicate Inv(cfg: Config, seed: Db, s: State)
  {
    && TablesOk(seed, s)
    && LogOk(cfg, seed, s.history)
    && (forall w :: 0 <= w < |s.workers| ==> WorkerOk(cfg, seed, s.history, s.workers[w]))
    && (forall v, w :: 0 <= v < |s.workers| && 0 <= w < |s.workers| && v != w
                       ==> WalletsApart(s.workers[v], s.workers[w]))
  }

  // ---------- steps that leave the log alone ----------

  /** Replacing one worker keeps the invariant when the new worker is fine by itself and beside the others. */
  lemma PutKeeps(cfg: Config, seed: Db, s: State, w: nat, x: Worker)
    requires Inv(cfg, seed, s) && w < |s.workers|
    requires WorkerOk(cfg, seed, s.history, x)
    requires forall v :: 0 <= v < |s.workers| && v != w ==> WalletsApart(x, s.workers[v])
    ensures Inv(cfg, seed, Put(s, w, x))
  {
    var t := Put(s, w, x);
    forall v, u | 0 <= v < |t.workers| && 0 <= u < |t.workers| && v != u
      ensures WalletsApart(t.workers[v], t.workers[u])
    {
      if v == w {
        assert WalletsApart(x, s.workers[u]);
      } else if u == w {
        assert WalletsApart(x, s.workers[v]);
      } else {
        assert WalletsApart(s.workers[v], s.workers[u]);
      }
    }
  }

  lemma NoWalletKeeps(cfg: Config, seed: Db, s: State, w: nat, x: Worker)
    requires Inv(cfg, seed, s) && w < |s.workers|
    requires WorkerOk(cfg, seed, s.history, x)
    requires forall a :: !HoldsWallet(x, a)
    ensures Inv(cfg, seed, Put(s, w, x))
  {
    PutKeeps(cfg, seed, s, w, x);
  }

  lemma BeginOk(cfg: Config, seed: Db, h: seq<Commit>, job: Payload)
    ensures WorkerOk(cfg, seed, h, Begin(cfg, job))
  {
  }

  /** Stopping is fine from anywhere. */
  lemma StopOk(cfg: Config, seed: Db, h: seq<Commit>, x: Worker, pc: Pc)
    requires WorkerOk(cfg, seed, h, x)
    requires pc.Idle? || (pc.Threw? && !Resting(x.pc)) || (pc.Threw? && InTx(x.pc))
    ensures WorkerOk(cfg, seed, h, EndTx(x, pc))
  {
  }

  /** A worker's facts before and after its next local statement. */
  ghost predicate LocalMove(cfg: Config, seed: Db, s: State, w: nat, rate: real)
  {
    && TablesOk(seed, s) && w < |s.workers|
    && WorkerOk(cfg, seed, s.history, s.workers[w])
    && Local(cfg, s, w, rate).Some?
  }

  lemma StatusLocalOk(cfg: Config, seed: Db, s: State, w: nat, rate: real)
    requires LocalMove(cfg, seed, s, w, rate) && OnStatus(s.workers[w].pc)
    ensures WorkerOk(cfg, seed, s.history, Local(cfg, s, w, rate).value)
  {
    hide CheckStatement, WriteStatement, AroundStatement;
    hide LedgerOf, VersionOf, TransfersOf, Balance, FindTransfer, HasTransfer, HasKey, PairCollides, Exchanged,
         BackoffMs, KeyFree, WalletFree, PairFree;
  }

  lemma AroundLocalOk(cfg: Config, seed: Db, s: State, w: nat, rate: real)
    requires LocalMove(cfg, seed, s, w, rate)
    requires !OnStatus(s.workers[w].pc) && !OnChecks(s.workers[w].pc) && !OnWrites(s.workers[w].pc)
    ensures WorkerOk(cfg, seed, s.history, Local(cfg, s, w, rate).value)
  {
    hide StatusStatement, CheckStatement, WriteStatement;
    hide LedgerOf, VersionOf, TransfersOf, Balance, HasKey, PairCollides, Exchanged,
         BackoffMs, KeyFree, WalletFree, PairFree;
  }

  lemma ChecksLocalKnows(cfg: Config, seed: Db, s: State, w: nat, rate: real)
    requires LocalMove(cfg, seed, s, w, rate) && OnChecks(s.workers[w].pc)
    ensures KnowsOk(cfg, seed, s.history, Local(cfg, s, w, rate).value)
  {
    hide StatusStatement, WriteStatement, AroundStatement, FrameOk, BumpsOk, AnswerOk;
    hide LedgerOf, VersionOf, TransfersOf, Balance, Exchanged;
    assert s.history[..|s.history|] == s.history;
    PositiveProduct(s.workers[w].job.amount, rate);
  }

  lemma ChecksLocalFrame(cfg: Config, seed: Db, s: State, w: nat, rate: real)
    requires LocalMove(cfg, seed, s, w, rate) && OnChecks(s.workers[w].pc)
    ensures FrameOk(cfg, Local(cfg, s, w, rate).value)
  {
    hide StatusStatement, WriteStatement, AroundStatement, KnowsOk, BumpsOk, AnswerOk, TablesOk;
    hide LedgerOf, VersionOf, TransfersOf, Balance, Exchanged, SleptBefore, Ver;
  }

  lemma ChecksLocalOk(cfg: Config, seed: Db, s: State, w: nat, rate: real)
    requires LocalMove(cfg, seed, s, w, rate) && OnChecks(s.workers[w].pc)
    ensures WorkerOk(cfg, seed, s.history, Local(cfg, s, w, rate).value)
  {
    hide StatusStatement, WriteStatement, AroundStatement, KnowsOk, TablesOk, LoopOk;
    hide LedgerOf, VersionOf, TransfersOf, Balance, Exchanged, SleptBefore, Ver;
    ChecksLocalKnows(cfg, seed, s, w, rate);
    ChecksLocalFrame(cfg, seed, s, w, rate);
  }

  /** The insert: it goes in without a txId, or fails and stays where it is. */
  lemma InsertLocalOk(cfg: Config, seed: Db, s: State, w: nat, rate: real)
    requires LocalMove(cfg, seed, s, w, rate) && s.workers[w].pc.InsertPair?
    ensures WorkerOk(cfg, seed, s.history, Local(cfg, s, w, rate).value)
  {
    hide StatusStatement, CheckStatement, AroundStatement;
    hide LedgerOf, VersionOf, TransfersOf, Balance, FindTransfer, HasTransfer, HasKey, PairCollides, Exchanged,
         BackoffMs, KeyFree, WalletFree, PairFree, SeesRecord, BalanceRead, VersionRead, CurrentVersion, SleptBefore;
    var x := s.workers[w];
    if x.job.txId.Some? {
      TxIdCollides(cfg.uniqueIndex, s.db.ledger, x.job, x.credit);
    }
  }

  lemma BumpFromOk(cfg: Config, seed: Db, s: State, w: nat, rate: real)
    requires LocalMove(cfg, seed, s, w, rate) && s.workers[w].pc.BumpFrom?
    ensures WorkerOk(cfg, seed, s.history, Local(cfg, s, w, rate).value)
  {
    hide StatusStatement, CheckStatement, AroundStatement;
    hide LedgerOf, VersionOf, TransfersOf, Balance, PairCollides, KeyFree, WalletFree, PairFree, SeesRecord,
         SleptBefore, BalanceRead, Owns, Converted, HasTransfer;
  }

  lemma BumpToOk(cfg: Config, seed: Db, s: State, w: nat, rate: real)
    requires LocalMove(cfg, seed, s, w, rate) && s.workers[w].pc.BumpTo?
    ensures WorkerOk(cfg, seed, s.history, Local(cfg, s, w, rate).value)
  {
    hide StatusStatement, CheckStatement, AroundStatement;
    hide LedgerOf, VersionOf, TransfersOf, Balance, PairCollides, KeyFree, WalletFree, PairFree, SeesRecord,
         SleptBefore, BalanceRead, Owns, Converted, HasTransfer;
    // a second read of the same wallet saw at most the version the first UPDATE has just passed
    var x := s.workers[w];
    assert x.toAt <= |s.history|;
    VersionGrows(seed.version, s.history, x.toAt, x.job.to);
  }

  lemma MarkDoneOk(cfg: Config, seed: Db, s: State, w: nat, rate: real)
    requires LocalMove(cfg, seed, s, w, rate) && s.workers[w].pc.MarkDone?
    ensures WorkerOk(cfg, seed, s.history, Local(cfg, s, w, rate).value)
  {
    hide StatusStatement, CheckStatement, AroundStatement;
    hide LedgerOf, VersionOf, TransfersOf, Balance, PairCollides, KeyFree, WalletFree, PairFree, SeesRecord,
         SleptBefore, BalanceRead, Owns, Converted, HasTransfer;
  }

  lemma WritesLocalOk(cfg: Config, seed: Db, s: State, w: nat, rate: real)
    requires LocalMove(cfg, seed, s, w, rate) && OnWrites(s.workers[w].pc)
    ensures WorkerOk(cfg, seed, s.history, Local(cfg, s, w, rate).value)
  {
    hide WorkerOk, Local, TablesOk;
    match s.workers[w].pc {
      case InsertPair => InsertLocalOk(cfg, seed, s, w, rate);
      case BumpFrom => BumpFromOk(cfg, seed, s, w, rate);
      case BumpTo => BumpToOk(cfg, seed, s, w, rate);
      case MarkDone => MarkDoneOk(cfg, seed, s, w, rate);
    }
  }

  lemma LocalOk(cfg: Config, seed: Db, s: State, w: nat, rate: real)
    requires LocalMove(cfg, seed, s, w, rate)
    ensures WorkerOk(cfg, seed, s.history, Local(cfg, s, w, rate).value)
  {
    hide LedgerOf, VersionOf, TransfersOf, Balance, WorkerOk, Local;
    var pc := s.workers[w].pc;
    if OnStatus(pc) {
      StatusLocalOk(cfg, seed, s, w, rate);
    } else if OnChecks(pc) {
      ChecksLocalOk(cfg, seed, s, w, rate);
    } else if OnWrites(pc) {
      WritesLocalOk(cfg, seed, s, w, rate);
    } else {
      AroundLocalOk(cfg, seed, s, w, rate);
    }
  }

  /** The two rows of one pair carry the same txId, so a pair with a txId never goes in. */
  lemma TxIdCollides(keyTypeIndex: bool, ledger: seq<LedgerRow>, job: Payload, credit: real)
    requires job.txId.Some?
    ensures PairCollides(keyTypeIndex, ledger, DebitRow(job), CreditRow(job, credit))
  {
    assert (ledger + [DebitRow(job)])[|ledger|].txId == job.txId;
  }

  lemma PositiveProduct(a: real, b: real)
    ensures a > 0.0 && b > 0.0 ==> Exchanged(a, b) > 0.0
  {
  }

  lemma LocalApart(cfg: Config, seed: Db, s: State, w: nat, rate: real, v: nat)
    requires w < |s.workers| && Local(cfg, s, w, rate).Some? && v < |s.workers| && v != w
    requires WorkerOk(cfg, seed, s.history, s.workers[w]) && WalletsApart(s.workers[w], s.workers[v])
    ensures WalletsApart(Local(cfg, s, w, rate).value, s.workers[v])
  {
    hide LedgerOf, VersionOf, TransfersOf, Balance, SleptBefore, BackoffMs, Exchanged;
    var x := s.workers[w];
    var y := Local(cfg, s, w, rate).value;
    forall a | HoldsWallet(y, a)
      ensures !HoldsWallet(s.workers[v], a)
    {
      if x.pc == BumpFrom {
        assert WalletFree(s, w, x.job.from);
      } else if x.pc == BumpTo {
        assert y.pc == MarkDone && x.bumpedFrom && HoldsWallet(x, x.job.from);
        assert WalletFree(s, w, x.job.to);
      } else {
        assert HoldsWallet(x, a);
      }
    }
  }

  /** Without a txId, and with no row for its key, a pair goes in. */
  lemma FreshPair(keyTypeIndex: bool, ledger: seq<LedgerRow>, job: Payload, credit: real)
    requires job.txId.None? && job.key.Some? && !HasKey(ledger, job.key.value)
    ensures !PairCollides(keyTypeIndex, ledger, DebitRow(job), CreditRow(job, credit))
  {
  }

  // ---------- the commit ----------

  /** What the committing worker knows is what the log needs. */
  lemma CommitFits(cfg: Config, seed: Db, h: seq<Commit>, x: Worker)
    requires WorkerOk(cfg, seed, h, x) && x.pc.CommitNew?
    ensures Fits(cfg, seed, h, CommitLog(x))
  {
  }

  lemma CommitIsTransfer(cfg: Config, s: State, w: nat, rate: real)
    requires w < |s.workers| && s.workers[w].pc.CommitNew?
    ensures Statement(cfg, s, w, rate) == Some(CommitTransfer(s, w, SendEmail(Some(s.workers[w].transferId))))
  {
  }

  lemma LogGrows(cfg: Config, seed: Db, h: seq<Commit>, c: Commit)
    requires LogOk(cfg, seed, h) && Fits(cfg, seed, h, c)
    ensures LogOk(cfg, seed, h + [c])
  {
    var g := h + [c];
    forall i | 0 <= i < |g|
      ensures Fits(cfg, seed, g[..i], g[i])
    {
      assert g[..i] == h[..i];
      if i == |h| {
        assert h[..i] == h;
      }
    }
  }

  /** Another worker's commit leaves a worker's facts alone: it touches no wallet this worker has locked. */
  lemma WorkerSurvivesCommit(cfg: Config, seed: Db, h: seq<Commit>, c: Commit, x: Worker)
    requires WorkerOk(cfg, seed, h, x)
    requires forall a :: HoldsWallet(x, a) ==> !Touches(c, a)
    ensures WorkerOk(cfg, seed, h + [c], x)
  {
    var g := h + [c];
    Append(seed, h, c);
    if Rank(x) >= 2 {
      assert g[..x.balanceAt] == h[..x.balanceAt];
    }
    if Rank(x) >= 3 {
      assert g[..x.fromAt] == h[..x.fromAt];
    }
    if Rank(x) >= 4 {
      assert g[..x.toAt] == h[..x.toAt];
    }
    if x.bumpedFrom {
      assert HoldsWallet(x, x.job.from);
    }
    if Rank(x) >= 6 {
      assert HoldsWallet(x, x.job.to);
    }
    if Answer(x.pc).Some? {
      HasTransferStays(TransfersOf(h), RowOf(c), Answer(x.pc).value, KeyOf(x));
    }
  }

  lemma CommitKeeps(cfg: Config, seed: Db, s: State, w: nat, pc: Pc)
    requires Inv(cfg, seed, s) && w < |s.workers| && s.workers[w].pc.CommitNew?
    requires pc == Threw || pc == SendEmail(Some(s.workers[w].transferId))
    ensures Inv(cfg, seed, CommitTransfer(s, w, pc))
  {
    hide LedgerOf, VersionOf, TransfersOf, Balance, SleptBefore, BackoffMs, Exchanged;
    var x := s.workers[w];
    var c := CommitLog(x);
    var t := CommitTransfer(s, w, pc);
    CommitFits(cfg, seed, s.history, x);
    LogGrows(cfg, seed, s.history, c);
    Append(seed, s.history, c);
    forall v | 0 <= v < |t.workers|
      ensures WorkerOk(cfg, seed, t.history, t.workers[v])
    {
      if v == w {
        assert t.db.transfers[|s.history|] == RowOf(c);
      } else {
        assert WalletsApart(s.workers[v], x);
        WorkerSurvivesCommit(cfg, seed, s.history, c, s.workers[v]);
      }
    }
    forall v, u | 0 <= v < |t.workers| && 0 <= u < |t.workers| && v != u
      ensures WalletsApart(t.workers[v], t.workers[u])
    {
      if v != w && u != w {
        assert WalletsApart(s.workers[v], s.workers[u]);
      }
    }
  }

  // ---------- all steps ----------

  /** A step that only writes the idempotency table or the sequence, and moves one worker. */
  lemma StatusWriteKeeps(cfg: Config, seed: Db, s: State, db: Db)
    requires Inv(cfg, seed, s)
    requires db.ledger == s.db.ledger && db.transfers == s.db.transfers && db.version == s.db.version
    ensures Inv(cfg, seed, s.(db := db))
  {
  }

  lemma VisibleLoopOk(cfg: Config, s: State, w: nat, rate: real)
    requires w < |s.workers| && LoopOk(cfg, s.workers[w]) && Statement(cfg, s, w, rate).Some?
    requires VisibleStatement(s.workers[w].pc)
    ensures LoopOk(cfg, Statement(cfg, s, w, rate).value.workers[w])
  {
    hide Local, AllFree, MayUpdate, CommitRecord, UpdateRecord, Bump, SleptBefore;
  }

  lemma InsertTransferOk(cfg: Config, seed: Db, s: State, w: nat, rate: real)
    requires w < |s.workers| && WorkerOk(cfg, seed, s.history, s.workers[w]) && Statement(cfg, s, w, rate).Some?
    requires s.workers[w].pc.InsertTransfer?
    ensures WorkerOk(cfg, seed, s.history, Statement(cfg, s, w, rate).value.workers[w])
  {
    hide LedgerOf, VersionOf, TransfersOf, Balance, SleptBefore, Local, HasTransfer, AllFree, MayUpdate,
         CommitRecord, UpdateRecord, BalanceRead, VersionRead, Owns, Converted, CurrentVersion, Bump, LoopOk;
    VisibleLoopOk(cfg, s, w, rate);
  }

  lemma ReconcileMarkOk(cfg: Config, seed: Db, s: State, w: nat, rate: real)
    requires w < |s.workers| && WorkerOk(cfg, seed, s.history, s.workers[w]) && Statement(cfg, s, w, rate).Some?
    requires s.workers[w].pc.ReconcileMark?
    ensures WorkerOk(cfg, seed, s.history, Statement(cfg, s, w, rate).value.workers[w])
  {
    hide LedgerOf, VersionOf, TransfersOf, Balance, SleptBefore, Local, HasTransfer, AllFree, MayUpdate,
         CommitRecord, UpdateRecord, BalanceRead, VersionRead, Owns, Converted, CurrentVersion, Bump, LoopOk;
    VisibleLoopOk(cfg, s, w, rate);
  }

  lemma AnswerWritesOk(cfg: Config, seed: Db, s: State, w: nat, rate: real)
    requires w < |s.workers| && WorkerOk(cfg, seed, s.history, s.workers[w]) && Statement(cfg, s, w, rate).Some?
    requires s.workers[w].pc.CommitExisting? || s.workers[w].pc.RecordFailure?
    ensures WorkerOk(cfg, seed, s.history, Statement(cfg, s, w, rate).value.workers[w])
  {
    hide LedgerOf, VersionOf, TransfersOf, Balance, SleptBefore, Local, HasTransfer, AllFree, MayUpdate,
         CommitRecord, UpdateRecord, BalanceRead, VersionRead, Owns, Converted, CurrentVersion, Bump, LoopOk;
    VisibleLoopOk(cfg, s, w, rate);
  }

  lemma VisibleOk(cfg: Config, seed: Db, s: State, w: nat, rate: real)
    requires w < |s.workers| && WorkerOk(cfg, seed, s.history, s.workers[w]) && Statement(cfg, s, w, rate).Some?
    requires VisibleStatement(s.workers[w].pc)
    ensures WorkerOk(cfg, seed, s.history, Statement(cfg, s, w, rate).value.workers[w])
  {
    hide WorkerOk, Statement;
    match s.workers[w].pc {
      case InsertTransfer => InsertTransferOk(cfg, seed, s, w, rate);
      case ReconcileMark(_, _) => ReconcileMarkOk(cfg, seed, s, w, rate);
      case _ => AnswerWritesOk(cfg, seed, s, w, rate);
    }
  }

  predicate VisibleStatement(pc: Pc)
  {
    pc.CommitExisting? || pc.ReconcileMark? || pc.RecordFailure? || pc.InsertTransfer?
  }

  lemma VisibleKeeps(cfg: Config, seed: Db, s: State, w: nat, rate: real)
    requires Inv(cfg, seed, s) && w < |s.workers| && Statement(cfg, s, w, rate).Some?
    requires VisibleStatement(s.workers[w].pc)
    ensures Inv(cfg, seed, Statement(cfg, s, w, rate).value)
  {
    hide LedgerOf, VersionOf, TransfersOf, WorkerOk, Local;
    assert WorkerOk(cfg, seed, s.history, s.workers[w]);
    VisibleOk(cfg, seed, s, w, rate);
    MovedKeeps(cfg, seed, s, Statement(cfg, s, w, rate).value, w);
  }

  lemma LocalKeeps(cfg: Config, seed: Db, s: State, w: nat, rate: real)
    requires Inv(cfg, seed, s) && w < |s.workers| && Local(cfg, s, w, rate).Some?
    ensures Inv(cfg, seed, Put(s, w, Local(cfg, s, w, rate).value))
  {
    hide LedgerOf, VersionOf, TransfersOf, Balance, Local, WorkerOk, Fits;
    assert WorkerOk(cfg, seed, s.history, s.workers[w]);
    LocalOk(cfg, seed, s, w, rate);
    forall v | 0 <= v < |s.workers| && v != w
      ensures WalletsApart(Local(cfg, s, w, rate).value, s.workers[v])
    {
      assert WalletsApart(s.workers[w], s.workers[v]);
      LocalApart(cfg, seed, s, w, rate, v);
    }
    PutKeeps(cfg, seed, s, w, Local(cfg, s, w, rate).value);
  }

  lemma GoKeeps(cfg: Config, seed: Db, s: State, w: nat, rate: real)
    requires Inv(cfg, seed, s) && w < |s.workers| && Statement(cfg, s, w, rate).Some?
    ensures Inv(cfg, seed, Statement(cfg, s, w, rate).value)
  {
    hide Inv, Local;
    match s.workers[w].pc {
      case CommitNew => CommitKeeps(cfg, seed, s, w, SendEmail(Some(s.workers[w].transferId)));
      case CommitExisting(_) => VisibleKeeps(cfg, seed, s, w, rate);
      case ReconcileMark(_, _) => VisibleKeeps(cfg, seed, s, w, rate);
      case RecordFailure => VisibleKeeps(cfg, seed, s, w, rate);
      case InsertTransfer => VisibleKeeps(cfg, seed, s, w, rate);
      case _ => LocalKeeps(cfg, seed, s, w, rate);
    }
  }

  lemma MovedKeeps(cfg: Config, seed: Db, s: State, t: State, w: nat)
    requires Inv(cfg, seed, s) && w < |s.workers|
    requires t.db.ledger == s.db.ledger && t.db.transfers == s.db.transfers && t.db.version == s.db.version
    requires t.history == s.history && |t.workers| == |s.workers| && t.workers == s.workers[w := t.workers[w]]
    requires WorkerOk(cfg, seed, t.history, t.workers[w]) && forall a :: !HoldsWallet(t.workers[w], a)
    ensures Inv(cfg, seed, t)
  {
    StatusWriteKeeps(cfg, seed, s, t.db);
    NoWalletKeeps(cfg, seed, s.(db := t.db), w, t.workers[w]);
    assert TablesOk(seed, t);
  }

  lemma StepKeeps(cfg: Config, seed: Db, s: State, step: Step)
    requires Inv(cfg, seed, s) && Next(cfg, s, step).Some?
    ensures Inv(cfg, seed, Next(cfg, s, step).value)
  {
    hide LedgerOf, VersionOf, TransfersOf, Balance, Statement, WorkerOk;
    var t := Next(cfg, s, step).value;
    match step {
      case Go(w, rate) => GoKeeps(cfg, seed, s, w, rate);
      case Start(w, job) =>
        BeginOk(cfg, seed, s.history, job);
        MovedKeeps(cfg, seed, s, t, w);
      case Break(w) =>
        StopOk(cfg, seed, s.history, s.workers[w], Threw);
        MovedKeeps(cfg, seed, s, t, w);
      case Crash(w) =>
        StopOk(cfg, seed, s.history, s.workers[w], Idle);
        MovedKeeps(cfg, seed, s, t, w);
      case LoseAck(w) =>
        if s.workers[w].pc.CommitNew? {
          CommitKeeps(cfg, seed, s, w, Threw);
        } else {
          StopOk(cfg, seed, s.history, s.workers[w], Threw);
          MovedKeeps(cfg, seed, s, t, w);
        }
      case _ => StatusWriteKeeps(cfg, seed, s.(jobs := t.jobs), t.db);
    }
  }

  lemma InitOk(cfg: Config, s: State)
    requires Init(s)
    ensures Inv(cfg, s.db, s)
  {
  }

  /** Every state of every run satisfies the invariant. */
  lemma {:induction false} RunOk(cfg: Config, r: Run, i: nat)
    requires IsRun(cfg, r) && i < |r.states|
    ensures Inv(cfg, r.states[0].db, r.states[i])
  {
    if i == 0 {
      InitOk(cfg, r.states[0]);
    } else {
      RunOk(cfg, r, i - 1);
      assert Next(cfg, r.states[i - 1], r.steps[i - 1]) == Some(r.states[i]);
      StepKeeps(cfg, r.states[0].db, r.states[i - 1], r.steps[i - 1]);
    }
  }
}
