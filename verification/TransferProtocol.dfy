/**
 The concurrent transfer protocol as a step machine.

 Each worker runs `process` on a job; one step is one SQL statement, one e-mail, or one back-off
 sleep. The database is PostgreSQL at Read Committed: a statement reads what is committed when it
 runs, an UPDATE waits for the row lock and then looks at its WHERE clause again, an INSERT waits for
 an uncommitted row with the same unique key, and once a statement has failed the transaction can
 only roll back.
 */
module TransferProtocol {
  import opened Wrappers
  import opened Tables

  /**
   `uniqueIndex` says whether the unique index on (idempotencyKey, type) exists. When `statusTrusted`
   is false anyone may overwrite the idempotency table at any moment.
   */
  datatype Config = Config(wallets: map<WalletId, WalletInfo>, maxRetries: int,
                           uniqueIndex: bool, statusTrusted: bool)

  datatype Pc =
    | Idle
    // the transaction
    | Cas | ReadStatus | FindExisting | FindLedger | EnsureRecord
    | MarkExisting(found: Option<nat>) | CommitExisting(found: Option<nat>)
    | CheckOwner | ReadBalance | ReadFrom | ReadTo | Convert
    | InsertPair | InsertTransfer | BumpFrom | BumpTo | MarkDone | CommitNew
    // reconciliation, inside the transaction or after it
    | ReconcileTransfer(inside: bool) | ReconcileLedger(inside: bool)
    | ReconcileMark(inside: bool, found: Option<nat>)
    // around the transaction
    | RecordFailure | SendFailureEmail | Backoff | SendEmail(result: Option<nat>)
    | Returned(result: Option<nat>) | Threw

  /**
   A worker: its job, the retry loop's variables, and the transaction's private data. `locked` says it
   holds the row lock of its idempotency record, `write` is its uncommitted version of that record,
   `failed` that a statement of the transaction has failed. The `...At` fields log how many transfers
   had been committed when a value was read.
   */
  datatype Worker = Worker(pc: Pc, job: Payload, attempt: nat, slept: nat,
                           locked: bool, write: Option<IdemRecord>, failed: bool,
                           balance: real, balanceAt: nat,
                           fromVersion: nat, fromAt: nat, toVersion: nat, toAt: nat,
                           credit: real, transferId: nat, bumpedFrom: bool)

  /** A log record of one committed transfer. */
  datatype Commit = Commit(job: Payload, key: Key, credit: real, transferId: nat,
                           balance: real, balanceAt: nat,
                           fromVersion: nat, fromAt: nat, toVersion: nat, toAt: nat)

  /** `jobs` is everything ever queued; a queued job may run any number of times. */
  datatype State = State(db: Db, jobs: set<Payload>, workers: seq<Worker>, history: seq<Commit>)

  datatype Error = Permanent | Optimistic | Duplicate | Other

  datatype Step =
    | CreateRecord(k: Key)                 // enqueueing inserts the idempotency record
    | AddJob(job: Payload)                 // enqueueing puts the job on the queue
    | Start(w: nat, job: Payload)          // a worker takes a job, for the first time or again
    | Go(w: nat, rate: real)               // the worker's next statement succeeds
    | Break(w: nat)                        // the worker's next statement or e-mail fails
    | LoseAck(w: nat)                      // COMMIT takes effect but the worker sees an error
    | Crash(w: nat)                        // the worker dies
    | FailureWrite(k: Key)                 // the `failed` event handler runs
    | SetStatuses(m: map<Key, IdemRecord>) // only when statuses are not trusted

  // ---------- locks, derived from what each transaction has done ----------

  predicate HoldsKey(x: Worker, k: Key)
  {
    x.locked && x.job.key == Some(k)
  }

  predicate HasPair(x: Worker)
  {
    (x.pc.InsertTransfer? || x.pc.BumpFrom? || x.pc.BumpTo? || x.pc.MarkDone? || x.pc.CommitNew?) && !x.failed
  }

  predicate HoldsWallet(x: Worker, a: WalletId)
  {
    || (x.pc.BumpTo? && x.bumpedFrom && x.job.from == a)
    || ((x.pc.MarkDone? || x.pc.CommitNew?) && (x.job.from == a || x.job.to == a))
  }

  predicate KeyFree(s: State, w: nat, k: Key)
  {
    forall v :: 0 <= v < |s.workers| && v != w ==> !HoldsKey(s.workers[v], k)
  }

  predicate AllFree(s: State, k: Key)
  {
    forall v :: 0 <= v < |s.workers| ==> !HoldsKey(s.workers[v], k)
  }

  predicate WalletFree(s: State, w: nat, a: WalletId)
  {
    forall v :: 0 <= v < |s.workers| && v != w ==> !HoldsWallet(s.workers[v], a)
  }

  predicate PairFree(s: State, w: nat, k: Key)
  {
    forall v :: 0 <= v < |s.workers| && v != w ==> !(HasPair(s.workers[v]) && s.workers[v].job.key == Some(k))
  }

  // ---------- leaving a transaction ----------

  function Pow2(n: nat): nat
  {
    if n == 0 then 1 else 2 * Pow2(n - 1)
  }

  /** How long `backoff` sleeps before the given attempt. */
  function BackoffMs(attempt: nat): nat
    requires attempt > 0
  {
    100 * Pow2(attempt - 1)
  }

  /** All the sleeps before the given attempt. */
  function SleptBefore(attempt: nat): nat
  {
    if attempt == 0 then 0 else SleptBefore(attempt - 1) + BackoffMs(attempt)
  }

  /** `amount` in the target currency. */
  function Exchanged(amount: real, rate: real): real
  {
    amount * rate
  }

  function KeyOf(x: Worker): Key
  {
    if x.job.key.Some? then x.job.key.value else 0
  }

  /** The worker outside any transaction, at `pc`. */
  function EndTx(x: Worker, pc: Pc): Worker
  {
    x.(pc := pc, locked := false, write := None, failed := false, bumpedFrom := false)
  }

  /** Rolls back and goes where `process` catches the error. */
  function AfterError(cfg: Config, x: Worker, e: Error): Worker
  {
    match e
    case Permanent => EndTx(x, RecordFailure)
    case Optimistic => EndTx(x, if x.attempt < cfg.maxRetries then Backoff else Threw)
    case Duplicate => EndTx(x, ReconcileTransfer(false))
    case Other => EndTx(x, Threw)
  }

  function DebitRow(job: Payload): LedgerRow
  {
    LedgerRow(Debit, job.from, job.amount, job.key, job.txId)
  }

  function CreditRow(job: Payload, credit: real): LedgerRow
  {
    LedgerRow(Credit, job.to, credit, job.key, job.txId)
  }

  // ---------- statements that write nothing another connection can see ----------

  /** Whether an UPDATE by this worker finds a row: a committed record, or one the worker has inserted itself. */
  predicate SeesRecord(db: Db, x: Worker)
  {
    KeyOf(x) in db.idem || x.write.Some?
  }

  /** The worker with its record marked completed; nothing is locked or written when there is no row. */
  function Marked(db: Db, x: Worker, found: Option<nat>): Worker
  {
    if SeesRecord(db, x) then x.(locked := true, write := Some(IdemRecord(Completed, TransferRef(found)))) else x
  }

  /** `markCompleted` inside the transaction: it waits for the row's lock, if there is a row. */
  function Updated(s: State, w: nat, x: Worker, found: Option<nat>): Option<Worker>
  {
    if SeesRecord(s.db, x) && !KeyFree(s, w, KeyOf(x)) then None else Some(Marked(s.db, x, found))
  }

  /** An UPDATE of a record from another connection waits for the lock of a committed row. */
  predicate MayUpdate(s: State, k: Key)
  {
    k in s.db.idem ==> AllFree(s, k)
  }

  /** The statements on the idempotency record, up to the first-time path. */
  function StatusStatement(cfg: Config, s: State, w: nat): Option<Worker>
    requires w < |s.workers|
  {
    var x := s.workers[w];
    var k := KeyOf(x);
    var db := s.db;
    match x.pc
    case Cas =>
      if k in db.idem && db.idem[k].status.Pending? then
        if KeyFree(s, w, k) then
          Some(x.(pc := FindExisting, locked := true,
                  write := Some(IdemRecord(Processing, db.idem[k].response))))
        else None
      else Some(x.(pc := ReadStatus))
    case ReadStatus =>
      Some(if k in db.idem && db.idem[k].status.Completed? then x.(pc := FindExisting)
           else AfterError(cfg, x, Other))
    case FindExisting =>
      var found := FindTransfer(db.transfers, k);
      Some(x.(pc := if found.Some? then MarkExisting(found) else FindLedger))
    case FindLedger =>
      Some(x.(pc := if HasKey(db.ledger, k) then MarkExisting(None) else EnsureRecord))
    case MarkExisting(found) =>
      Updated(s, w, x.(pc := CommitExisting(found)), found)
    case EnsureRecord =>
      if SeesRecord(db, x) then Some(x.(pc := CheckOwner))
      else if KeyFree(s, w, k) then
        Some(x.(pc := CheckOwner, locked := true, write := Some(IdemRecord(Pending, Empty))))
      else None
    case _ => None
  }

  /** Validation and the reads it rests on. */
  function CheckStatement(cfg: Config, s: State, w: nat, rate: real): Option<Worker>
    requires w < |s.workers|
  {
    var x := s.workers[w];
    var k := KeyOf(x);
    var db := s.db;
    match x.pc
    case CheckOwner =>
      Some(if x.job.from in cfg.wallets && cfg.wallets[x.job.from].owner == x.job.userId
           then x.(pc := ReadBalance)
           else AfterError(cfg, x, Permanent))
    case ReadBalance =>
      var balance := Balance(db.ledger, x.job.from);
      Some(if x.job.amount <= 0.0 || balance < x.job.amount then AfterError(cfg, x, Permanent)
           else x.(pc := ReadFrom, balance := balance, balanceAt := |s.history|))
    case ReadFrom =>
      Some(x.(pc := ReadTo, fromVersion := Ver(db.version, x.job.from), fromAt := |s.history|))
    case ReadTo =>
      Some(if x.job.to !in cfg.wallets || x.job.from !in cfg.wallets then AfterError(cfg, x, Other)
           else x.(pc := Convert, toVersion := Ver(db.version, x.job.to), toAt := |s.history|))
    case Convert =>
      if x.job.to !in cfg.wallets || x.job.from !in cfg.wallets then None
      else if cfg.wallets[x.job.from].currency == cfg.wallets[x.job.to].currency
      then Some(x.(pc := InsertPair, credit := x.job.amount))
      else if rate > 0.0 then Some(x.(pc := InsertPair, credit := Exchanged(x.job.amount, rate)))
      else None
    case _ => None
  }

  /** The writes of the first-time path, all private until the commit. */
  function WriteStatement(cfg: Config, s: State, w: nat): Option<Worker>
    requires w < |s.workers|
  {
    var x := s.workers[w];
    var k := KeyOf(x);
    var db := s.db;
    match x.pc
    case InsertPair =>
      if cfg.uniqueIndex && !PairFree(s, w, k) then None
      else if PairCollides(cfg.uniqueIndex, db.ledger, DebitRow(x.job), CreditRow(x.job, x.credit))
      then Some(x.(pc := ReconcileTransfer(true), failed := true))
      else Some(x.(pc := InsertTransfer))
    case BumpFrom =>
      var matches := Ver(db.version, x.job.from) == x.fromVersion;
      if matches && !WalletFree(s, w, x.job.from) then None
      else Some(x.(pc := BumpTo, bumpedFrom := matches))
    case BumpTo =>
      // the transaction sees its own first UPDATE
      var own := if x.bumpedFrom && x.job.from == x.job.to then 1 else 0;
      var matches := Ver(db.version, x.job.to) + own == x.toVersion;
      if matches && !WalletFree(s, w, x.job.to) then None
      else Some(if x.bumpedFrom && matches then x.(pc := MarkDone) else AfterError(cfg, x, Optimistic))
    case MarkDone =>
      Updated(s, w, x.(pc := CommitNew), Some(x.transferId))
    case _ => None
  }

  /** Reconciliation reads, e-mails and the back-off. */
  function AroundStatement(cfg: Config, s: State, w: nat): Option<Worker>
    requires w < |s.workers|
  {
    var x := s.workers[w];
    var k := KeyOf(x);
    var db := s.db;
    match x.pc
    case ReconcileTransfer(inside) =>
      var found := FindTransfer(db.transfers, k);
      Some(x.(pc := if found.Some? then ReconcileMark(inside, found) else ReconcileLedger(inside)))
    case ReconcileLedger(inside) =>
      Some(if HasKey(db.ledger, k) then x.(pc := ReconcileMark(inside, None))
           else if inside then AfterError(cfg, x, Duplicate)
           else x.(pc := Returned(None)))
    case SendFailureEmail => Some(x.(pc := Returned(None)))
    case SendEmail(result) => Some(x.(pc := Returned(result)))
    case Backoff =>
      Some(x.(pc := Cas, attempt := x.attempt + 1, slept := x.slept + BackoffMs(x.attempt + 1)))
    case _ => None
  }

  predicate OnStatus(pc: Pc)
  {
    pc.Cas? || pc.ReadStatus? || pc.FindExisting? || pc.FindLedger? || pc.MarkExisting? || pc.EnsureRecord?
  }

  predicate OnChecks(pc: Pc)
  {
    pc.CheckOwner? || pc.ReadBalance? || pc.ReadFrom? || pc.ReadTo? || pc.Convert?
  }

  predicate OnWrites(pc: Pc)
  {
    pc.InsertPair? || pc.BumpFrom? || pc.BumpTo? || pc.MarkDone?
  }

  /** The worker after its next statement; `None` while the statement waits for a lock. */
  function Local(cfg: Config, s: State, w: nat, rate: real): Option<Worker>
    requires w < |s.workers|
  {
    var pc := s.workers[w].pc;
    if OnStatus(pc) then StatusStatement(cfg, s, w)
    else if OnChecks(pc) then CheckStatement(cfg, s, w, rate)
    else if OnWrites(pc) then WriteStatement(cfg, s, w)
    else AroundStatement(cfg, s, w)
  }

  // ---------- statements whose effect is visible at once ----------

  function Put(s: State, w: nat, x: Worker): State
    requires w < |s.workers|
  {
    s.(workers := s.workers[w := x])
  }

  /** An UPDATE of one idempotency record: no effect when the record does not exist. */
  function UpdateRecord(db: Db, k: Key, record: IdemRecord): Db
  {
    if k in db.idem then db.(idem := db.idem[k := record]) else db
  }

  function CommitRecord(db: Db, x: Worker): Db
  {
    if x.write.Some? then db.(idem := db.idem[KeyOf(x) := x.write.value]) else db
  }

  function CommitLog(x: Worker): Commit
  {
    Commit(x.job, KeyOf(x), x.credit, x.transferId, x.balance, x.balanceAt,
           x.fromVersion, x.fromAt, x.toVersion, x.toAt)
  }

  function Bump(version: map<WalletId, nat>, a: WalletId): map<WalletId, nat>
  {
    version[a := Ver(version, a) + 1]
  }

  function CommitTransfer(s: State, w: nat, pc: Pc): State
    requires w < |s.workers|
  {
    var x := s.workers[w];
    var db := CommitRecord(s.db, x);
    var row := TransferRow(x.transferId, KeyOf(x), x.job.from, x.job.to, x.job.amount);
    Put(s.(db := db.(ledger := db.ledger + [DebitRow(x.job), CreditRow(x.job, x.credit)],
                     transfers := db.transfers + [row],
                     version := Bump(Bump(db.version, x.job.from), x.job.to)),
           history := s.history + [CommitLog(x)]),
        w, EndTx(x, pc))
  }

  function CommitStatus(s: State, w: nat, pc: Pc): State
    requires w < |s.workers|
  {
    Put(s.(db := CommitRecord(s.db, s.workers[w])), w, EndTx(s.workers[w], pc))
  }

  function Statement(cfg: Config, s: State, w: nat, rate: real): Option<State>
    requires w < |s.workers|
  {
    var x := s.workers[w];
    var k := KeyOf(x);
    match x.pc
    case CommitExisting(found) =>
      Some(CommitStatus(s, w, SendEmail(found)))
    case InsertTransfer =>
      if x.failed then Some(Put(s, w, AfterError(cfg, x, Other)))
      else Some(Put(s.(db := s.db.(nextTransferId := s.db.nextTransferId + 1)), w,
                    x.(pc := BumpFrom, transferId := s.db.nextTransferId)))
    case CommitNew => Some(CommitTransfer(s, w, SendEmail(Some(x.transferId))))
    case ReconcileMark(inside, found) =>
      // on another connection: it waits even for this worker's own lock
      if !MayUpdate(s, k) then None
      else
        var next := if inside then InsertTransfer else if found.Some? then SendEmail(found) else Returned(None);
        Some(Put(s.(db := UpdateRecord(s.db, k, IdemRecord(Completed, TransferRef(found)))), w, x.(pc := next)))
    case RecordFailure =>
      if x.job.key.None? then Some(Put(s, w, x.(pc := SendFailureEmail)))
      else if !MayUpdate(s, k) then None
      else Some(Put(s.(db := UpdateRecord(s.db, k, IdemRecord(Failed, Reason))), w, x.(pc := SendFailureEmail)))
    case _ =>
      var local := Local(cfg, s, w, rate);
      if local.Some? then Some(Put(s, w, local.value)) else None
  }

  // ---------- all steps ----------

  predicate Resting(pc: Pc)
  {
    pc.Idle? || pc.Returned? || pc.Threw?
  }

  /** `process` enters its loop; a payload without a key fails before the first statement. */
  function Begin(cfg: Config, job: Payload): Worker
  {
    var pc := if cfg.maxRetries < 0 then Returned(None) else if job.key.None? then RecordFailure else Cas;
    Worker(pc, job, 0, 0, false, None, false, 0.0, 0, 0, 0, 0, 0, 0.0, 0, false)
  }

  function Next(cfg: Config, s: State, step: Step): Option<State>
  {
    match step
    case CreateRecord(k) =>
      if k in s.db.idem || !AllFree(s, k) then None
      else Some(s.(db := s.db.(idem := s.db.idem[k := IdemRecord(Pending, Empty)])))
    case AddJob(job) => Some(s.(jobs := s.jobs + {job}))
    case Start(w, job) =>
      if w < |s.workers| && Resting(s.workers[w].pc) && job in s.jobs then Some(Put(s, w, Begin(cfg, job))) else None
    case Go(w, rate) => if w < |s.workers| then Statement(cfg, s, w, rate) else None
    case Break(w) =>
      if w < |s.workers| && !Resting(s.workers[w].pc) then Some(Put(s, w, EndTx(s.workers[w], Threw))) else None
    case LoseAck(w) =>
      if w < |s.workers| && s.workers[w].pc.CommitNew? then Some(CommitTransfer(s, w, Threw))
      else if w < |s.workers| && s.workers[w].pc.CommitExisting? then Some(CommitStatus(s, w, Threw))
      else None
    case Crash(w) => if w < |s.workers| then Some(Put(s, w, EndTx(s.workers[w], Idle))) else None
    case FailureWrite(k) =>
      if MayUpdate(s, k) then Some(s.(db := UpdateRecord(s.db, k, IdemRecord(Failed, Reason)))) else None
    case SetStatuses(m) => if cfg.statusTrusted then None else Some(s.(db := s.db.(idem := m)))
  }

  // ---------- runs ----------

  /** An arbitrary funded ledger without keyed rows, no transfers, no work under way. */
  predicate Init(s: State)
  {
    && (forall i :: 0 <= i < |s.db.ledger| ==> s.db.ledger[i].key.None?)
    && s.db.transfers == []
    && s.history == []
    && (forall k :: k in s.db.idem ==> s.db.idem[k].status.Pending? || s.db.idem[k].status.Failed?)
    && (forall w :: 0 <= w < |s.workers| ==> s.workers[w] == EndTx(s.workers[w], Idle))
  }

  datatype Run = Run(states: seq<State>, steps: seq<Step>)

  predicate IsRun(cfg: Config, r: Run)
  {
    && |r.states| == |r.steps| + 1
    && Init(r.states[0])
    && forall i :: 0 <= i < |r.steps| ==> Next(cfg, r.states[i], r.steps[i]) == Some(r.states[i + 1])
  }
}
