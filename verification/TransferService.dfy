/**
 `process` as imperative code over the tables, with no other transaction open. Every method also
 extends a path of the step machine, one step per statement: run alone, the code is one of the
 machine's runs, so what is proved of every run holds of it.
 */
module TransferService {
  import opened Wrappers
  import opened Tables
  import opened TransferProtocol
  import opened Invariant
  import opened Paths
  import opened Repositories
  import opened RetryLoop
  import Guarantees
  import Worth

  /** The committed tables with one transaction's uncommitted writes on top. */
  function Overlay(db: Db, x: Worker): Db
  {
    var d := CommitRecord(db, x);
    var d1 := if HasPair(x) then d.(ledger := d.ledger + [DebitRow(x.job), CreditRow(x.job, x.credit)]) else d;
    var row := TransferRow(x.transferId, KeyOf(x), x.job.from, x.job.to, x.job.amount);
    var d2 := if HasPair(x) && !x.pc.InsertTransfer? then d1.(transfers := d1.transfers + [row]) else d1;
    if x.pc.MarkDone? || x.pc.CommitNew? then d2.(version := Bump(Bump(d2.version, x.job.from), x.job.to))
    else if x.pc.BumpTo? && x.bumpedFrom then d2.(version := Bump(d2.version, x.job.from))
    else d2
  }

  lemma OverlayKeepsSequence(db: Db, x: Worker)
    ensures Overlay(db, x).nextTransferId == db.nextTransferId
  {
  }

  predicate Looking(pc: Pc)
  {
    pc.FindExisting? || pc.FindLedger? || pc.MarkExisting? || pc.EnsureRecord? || pc.CheckOwner?
  }

  /** While the transaction only looks, it sees the committed rows and its own record. */
  lemma LookingChangesNothing(db: Db, x: Worker, pc: Pc)
    requires Looking(x.pc) && Looking(pc)
    ensures Overlay(db, x.(pc := pc)) == Overlay(db, x) == CommitRecord(db, x)
    ensures Overlay(db, x).transfers == db.transfers && Overlay(db, x).ledger == db.ledger
  {
  }

  /** Nothing in the tables for the key. */
  predicate Unused(db: Db, k: Key)
  {
    FindTransfer(db.transfers, k).None? && !HasKey(db.ledger, k)
  }

  predicate SameCall(x: Worker, y: Worker)
  {
    x.job == y.job && x.attempt == y.attempt && x.slept == y.slept
  }

  datatype Outcome = Ok(id: Option<nat>) | Fail(e: Error)

  predicate Affordable(cfg: Config, db: Db, job: Payload)
  {
    Owns(cfg, job) && 0.0 < job.amount <= Balance(db.ledger, job.from)
  }

  /** Both wallets exist and an exchange rate is at hand if one is needed. */
  predicate Convertible(cfg: Config, job: Payload, rate: Option<real>)
  {
    && job.from in cfg.wallets && job.to in cfg.wallets
    && (cfg.wallets[job.from].currency == cfg.wallets[job.to].currency || rate.Some?)
  }

  function Credited(cfg: Config, job: Payload, rate: Option<real>): real
    requires Convertible(cfg, job, rate)
  {
    if cfg.wallets[job.from].currency == cfg.wallets[job.to].currency then job.amount
    else Exchanged(job.amount, rate.value)
  }

  lemma BreakIsError(cfg: Config, s: State, w: nat, x: Worker)
    requires w < |s.workers| && !Resting(x.pc)
    ensures Next(cfg, Put(s, w, x), Break(w)) == Some(Put(s, w, AfterError(cfg, x, Other)))
  {
    assert Put(s, w, x).workers[w := EndTx(x, Threw)] == s.workers[w := EndTx(x, Threw)];
  }

  /** How a first attempt under a fresh key ends when no other transaction is open. */
  function Verdict(cfg: Config, db: Db, job: Payload, rate: Option<real>): Outcome
  {
    if !Affordable(cfg, db, job) then Fail(Permanent)
    else if !Convertible(cfg, job, rate) then Fail(Other)
    else if job.txId.Some? then Fail(Duplicate)
    else if job.from == job.to then Fail(Optimistic)
    else Ok(Some(db.nextTransferId))
  }

  /** How a whole transaction ends when no other is open. */
  function Result(cfg: Config, db: Db, job: Payload, rate: Option<real>): Outcome
  {
    if job.key.None? then Fail(Permanent) else
    var k := job.key.value;
    if !(k in db.idem && (db.idem[k].status.Pending? || db.idem[k].status.Completed?)) then Fail(Other)
    else if !Unused(db, k) then Ok(FindTransfer(db.transfers, k))
    else Verdict(cfg, db, job, rate)
  }

  /** The tables after a first-time transfer. */
  function Transferred(db: Db, k: Key, job: Payload, credit: real): Db
  {
    var id := db.nextTransferId;
    Db(db.idem[k := IdemRecord(Completed, TransferRef(Some(id)))],
       db.ledger + [LedgerRow(Debit, job.from, job.amount, job.key, None),
                    LedgerRow(Credit, job.to, credit, job.key, None)],
       db.transfers + [TransferRow(id, k, job.from, job.to, job.amount)],
       Bump(Bump(db.version, job.from), job.to),
       id + 1)
  }

  /** Where a call's transaction begins: without a key it has failed already. */
  function FirstPc(job: Payload): Pc
  {
    if job.key.None? then RecordFailure else Cas
  }

  /** What a transaction that answered `id` has done to the tables. */
  predicate AfterSuccess(cfg: Config, db: Db, job: Payload, rate: Option<real>, id: Option<nat>, after: Db)
  {
    job.key.Some? &&
    if Unused(db, job.key.value)
    then Convertible(cfg, job, rate) && after == Transferred(db, job.key.value, job, Credited(cfg, job, rate))
    else after == UpdateRecord(db, job.key.value, IdemRecord(Completed, TransferRef(id)))
  }

  function Committed(s: State, x: Worker): State
  {
    s.(db := Overlay(s.db, x), history := s.history + [CommitLog(x)])
  }

  lemma CommitNewStep(cfg: Config, s: State, w: nat, x: Worker)
    requires w < |s.workers| && x.pc.CommitNew? && !x.failed
    ensures Next(cfg, Put(s, w, x), Go(w, 1.0))
            == Some(Put(Committed(s, x), w, EndTx(x, SendEmail(Some(x.transferId)))))
  {
    var y := EndTx(x, SendEmail(Some(x.transferId)));
    assert Put(s, w, x).workers[w := y] == s.workers[w := y];
  }

  lemma CommitExistingStep(cfg: Config, s: State, w: nat, x: Worker)
    requires w < |s.workers| && x.pc.CommitExisting?
    ensures Next(cfg, Put(s, w, x), Go(w, 1.0))
            == Some(Put(s.(db := CommitRecord(s.db, x)), w, EndTx(x, SendEmail(x.pc.found))))
  {
    var y := EndTx(x, SendEmail(x.pc.found));
    assert Put(s, w, x).workers[w := y] == s.workers[w := y];
  }

  /** The two looks at the tables before a first-time transfer. */
  lemma LookSteps(cfg: Config, s: State, w: nat, x: Worker, k: Key)
    requires Alone(s, w) && x.job.key == Some(k)
    ensures var found := FindTransfer(s.db.transfers, k);
            x.pc.FindExisting? ==>
              Local(cfg, Put(s, w, x), w, 1.0)
              == Some(x.(pc := if found.Some? then MarkExisting(found) else FindLedger))
    ensures x.pc.FindLedger? ==>
              Local(cfg, Put(s, w, x), w, 1.0)
              == Some(x.(pc := if HasKey(s.db.ledger, k) then MarkExisting(None) else EnsureRecord))
  {
    hide FindTransfer, HasKey, KeyFree, CheckStatement, WriteStatement, AroundStatement;
  }

  /** The worker once its record is sure to exist. */
  function Ensured(db: Db, x: Worker, k: Key): Worker
  {
    if k in db.idem || x.write.Some? then x.(pc := CheckOwner)
    else x.(pc := CheckOwner, locked := true, write := Some(IdemRecord(Pending, Empty)))
  }

  lemma EnsureStep(cfg: Config, s: State, w: nat, x: Worker, k: Key)
    requires Alone(s, w) && x.job.key == Some(k) && x.pc.EnsureRecord?
    ensures Local(cfg, Put(s, w, x), w, 1.0) == Some(Ensured(s.db, x, k))
  {
    hide FindTransfer, HasKey, CheckStatement, WriteStatement, AroundStatement;
  }

  /** The two version updates, with nobody else holding a wallet. */
  lemma BumpSteps(cfg: Config, s: State, w: nat, x: Worker)
    requires Alone(s, w)
    ensures x.pc.BumpFrom? && Ver(s.db.version, x.job.from) == x.fromVersion ==>
              Local(cfg, Put(s, w, x), w, 1.0) == Some(x.(pc := BumpTo, bumpedFrom := true))
    ensures var own := if x.job.from == x.job.to then 1 else 0;
            x.pc.BumpTo? && x.bumpedFrom ==>
              Local(cfg, Put(s, w, x), w, 1.0)
              == Some(if Ver(s.db.version, x.job.to) + own == x.toVersion then x.(pc := MarkDone)
                      else AfterError(cfg, x, Optimistic))
  {
    hide StatusStatement, CheckStatement, AroundStatement, AfterError;
  }

  lemma MarkExistingStep(cfg: Config, s: State, w: nat, x: Worker, k: Key, found: Option<nat>)
    requires Alone(s, w) && x.job.key == Some(k) && x.pc == MarkExisting(found)
    ensures Local(cfg, Put(s, w, x), w, 1.0) == Some(Marked(s.db, x.(pc := CommitExisting(found)), found))
  {
    hide FindTransfer, HasKey, CheckStatement, WriteStatement, AroundStatement;
  }

  lemma MarkDoneStep(cfg: Config, s: State, w: nat, x: Worker, k: Key)
    requires Alone(s, w) && x.job.key == Some(k) && x.pc.MarkDone?
    ensures Local(cfg, Put(s, w, x), w, 1.0)
            == Some(Marked(s.db, x.(pc := CommitNew), Some(x.transferId)))
  {
    hide StatusStatement, CheckStatement, AroundStatement, Marked;
  }

  lemma InsertStep(cfg: Config, s: State, w: nat, x: Worker)
    requires w < |s.workers| && x.pc.InsertTransfer? && !x.failed
    ensures var id := s.db.nextTransferId;
            Next(cfg, Put(s, w, x), Go(w, 1.0))
            == Some(Put(s.(db := s.db.(nextTransferId := id + 1)), w, x.(pc := BumpFrom, transferId := id)))
  {
    var y := x.(pc := BumpFrom, transferId := s.db.nextTransferId);
    assert Put(s, w, x).workers[w := y] == s.workers[w := y];
  }

  /** Somewhere on the path the record was there and no longer pending. */
  predicate WasSettled(p: Run, k: Key)
  {
    exists i :: 0 <= i < |p.states| && k in p.states[i].db.idem && !p.states[i].db.idem[k].status.Pending?
  }

  datatype EnqueueReply = Queued | NotOwner | InsufficientFunds | AlreadyProcessed | BeingProcessed | PreviouslyFailed

  /** The first objection to a request, in the order they are raised. */
  function Objection(cfg: Config, db: Db, job: Payload, tooLow: bool): EnqueueReply
  {
    if !Owns(cfg, job) then NotOwner
    else if tooLow then InsufficientFunds
    else if job.key.None? || job.key.value !in db.idem then Queued
    else match db.idem[job.key.value].status
      case Pending => Queued
      case Processing => BeingProcessed
      case Completed => AlreadyProcessed
      case Failed => PreviouslyFailed
  }

  lemma CreateRecordStep(cfg: Config, s: State, w: nat, x: Worker, k: Key)
    requires Alone(s, w) && !x.locked && k !in s.db.idem
    ensures Next(cfg, Put(s, w, x), CreateRecord(k))
            == Some(Put(s.(db := s.db.(idem := s.db.idem[k := IdemRecord(Pending, Empty)])), w, x))
  {
  }

  lemma RecordFailureStep(cfg: Config, s: State, w: nat, x: Worker)
    requires Alone(s, w) && x.pc.RecordFailure? && !x.locked
    ensures Next(cfg, Put(s, w, x), Go(w, 1.0))
            == Some(Put(s.(db := WithFailure(s.db, x.job.key)), w, x.(pc := SendFailureEmail)))
  {
    var y := x.(pc := SendFailureEmail);
    assert Put(s, w, x).workers[w := y] == s.workers[w := y];
  }

  lemma ReconcileMarkStep(cfg: Config, s: State, w: nat, x: Worker, k: Key)
    requires Alone(s, w) && x.pc.ReconcileMark? && !x.pc.inside && !x.locked && x.job.key == Some(k)
    ensures var found := x.pc.found;
            Next(cfg, Put(s, w, x), Go(w, 1.0))
            == Some(Put(s.(db := UpdateRecord(s.db, k, IdemRecord(Completed, TransferRef(found)))), w,
                        x.(pc := if found.Some? then SendEmail(found) else Returned(None))))
  {
    var found := x.pc.found;
    var y := x.(pc := if found.Some? then SendEmail(found) else Returned(None));
    assert Put(s, w, x).workers[w := y] == s.workers[w := y];
  }

  /** `process` gives an answer or throws. */
  datatype Reply = Answered(id: Option<nat>) | Raised

  /** The permanent failure of a call, written into its record if it names one. */
  function WithFailure(db: Db, key: Option<Key>): Db
  {
    if key.Some? then UpdateRecord(db, key.value, IdemRecord(Failed, Reason)) else db
  }

  /** What a call says when its first transaction ends in `first` and no other is open. */
  function Reported(first: Outcome, emailFails: bool): Reply
  {
    match first
    case Ok(id) => if emailFails then Raised else Answered(id)
    case Fail(e) =>
      if e.Permanent? then (if emailFails then Raised else Answered(None))
      else if e.Duplicate? then Answered(None)
      else Raised
  }

  /** The tables after the whole call; the sequence aside, only a success or a permanent failure changes them. */
  predicate Settled(cfg: Config, db: Db, job: Payload, rate: Option<real>, after: Db)
  {
    var first := Result(cfg, db, job, rate);
    if first.Ok? then AfterSuccess(cfg, db, job, rate, first.id, after)
    else if first.e.Permanent? then after == WithFailure(db, job.key).(nextTransferId := after.nextTransferId)
    else after == db.(nextTransferId := after.nextTransferId)
  }

  /** A retried transfer meets the same end: the sequence and the exchange rate make no difference to it. */
  lemma SameResult(cfg: Config, db: Db, now: Db, job: Payload, rate: Option<real>, rateNow: Option<real>)
    requires now == db.(nextTransferId := now.nextTransferId)
    requires (now == db && rate == rateNow) || Result(cfg, db, job, rate) == Fail(Optimistic)
    ensures Result(cfg, now, job, rateNow) == Result(cfg, db, job, rate)
    ensures Result(cfg, db, job, rate) == Fail(Duplicate) ==> job.key.Some? && Unused(db, job.key.value)
    ensures Result(cfg, db, job, rate) == Fail(Optimistic) ==> job.key.Some?
  {
    hide Balance, FindTransfer, HasKey;
  }

  // ---------- success in terms of the tables ----------

  lemma TransferredBalance(db: Db, k: Key, job: Payload, credit: real, y: WalletId)
    ensures Balance(Transferred(db, k, job, credit).ledger, y)
            == Balance(db.ledger, y) - (if y == job.from then job.amount else 0.0)
               + (if y == job.to then credit else 0.0)
  {
    hide Balance;
    var debit, arrival := LedgerRow(Debit, job.from, job.amount, job.key, None),
                          LedgerRow(Credit, job.to, credit, job.key, None);
    BalanceAppend(db.ledger, debit, y);
    BalanceAppend(db.ledger + [debit], arrival, y);
    assert db.ledger + [debit, arrival] == db.ledger + [debit] + [arrival];
  }

  /** When a transaction pays, from the tables, the job and the rate alone. */
  lemma PaysExactlyWhen(cfg: Config, db: Db, job: Payload, rate: Option<real>)
    ensures (job.key.Some? && Unused(db, job.key.value) && Result(cfg, db, job, rate).Ok?) <==>
              && job.key.Some? && job.key.value in db.idem
              && (db.idem[job.key.value].status.Pending? || db.idem[job.key.value].status.Completed?)
              && FindTransfer(db.transfers, job.key.value).None? && !HasKey(db.ledger, job.key.value)
              && job.from in cfg.wallets && cfg.wallets[job.from].owner == job.userId
              && 0.0 < job.amount <= Balance(db.ledger, job.from)
              && job.to in cfg.wallets && job.to != job.from && job.txId.None?
              && (cfg.wallets[job.from].currency == cfg.wallets[job.to].currency || rate.Some?)
    ensures job.key.Some? && Unused(db, job.key.value) && Result(cfg, db, job, rate).Ok? ==>
              Result(cfg, db, job, rate).id == Some(db.nextTransferId)
  {
    hide Balance, FindTransfer, HasKey;
  }

  /** Without a payment the money stays where it was, and an id in the answer is an earlier transfer's. */
  lemma NothingPaid(cfg: Config, db: Db, job: Payload, rate: Option<real>, after: Db)
    requires job.key.Some? ==> Unused(db, job.key.value) ==> Result(cfg, db, job, rate).Fail?
    requires var first := Result(cfg, db, job, rate);
             if first.Ok? then AfterSuccess(cfg, db, job, rate, first.id, after)
             else after == db.(nextTransferId := after.nextTransferId)
                  || after == WithFailure(db, job.key).(nextTransferId := after.nextTransferId)
    ensures after.ledger == db.ledger && after.transfers == db.transfers && after.version == db.version
    ensures var first := Result(cfg, db, job, rate);
            first.Ok? && first.id.Some? ==> job.key.Some? && HasTransfer(db.transfers, first.id.value, job.key.value)
  {
    hide Balance, HasTransfer, HasKey, Verdict, FindTransfer;
    if job.key.Some? && !Unused(db, job.key.value) {
      assert FindTransfer(db.transfers, job.key.value).Some? ==>
          HasTransfer(db.transfers, FindTransfer(db.transfers, job.key.value).value, job.key.value);
    }
  }

  /** A payment moves the amount, and what arrives is worth it at any prices the rate agrees with. */
  lemma PaidMeans(cfg: Config, db: Db, k: Key, job: Payload, rate: Option<real>, after: Db)
    requires Convertible(cfg, job, rate) && job.from != job.to
    requires after == Transferred(db, k, job, Credited(cfg, job, rate))
    ensures after.idem == db.idem[k := IdemRecord(Completed, TransferRef(Some(db.nextTransferId)))]
    ensures after.transfers == db.transfers + [TransferRow(db.nextTransferId, k, job.from, job.to, job.amount)]
    ensures after.version
            == db.version[job.from := Ver(db.version, job.from) + 1][job.to := Ver(db.version, job.to) + 1]
    ensures Balance(after.ledger, job.from) == Balance(db.ledger, job.from) - job.amount
    ensures Balance(after.ledger, job.to)
            == Balance(db.ledger, job.to)
               + (if cfg.wallets[job.from].currency == cfg.wallets[job.to].currency then job.amount
                  else job.amount * rate.value)
    ensures forall y :: y != job.from && y != job.to ==> Balance(after.ledger, y) == Balance(db.ledger, y)
    ensures forall prices: Worth.Prices ::
              (rate.Some? ==> Worth.Agrees(prices, cfg.wallets[job.from].currency, cfg.wallets[job.to].currency,
                                           rate.value)) ==>
              Worth.WorthOfTwo(cfg, prices, after.ledger, job.from, job.to)
              == Worth.WorthOfTwo(cfg, prices, db.ledger, job.from, job.to)
  {
    hide Balance;
    var from, to := cfg.wallets[job.from].currency, cfg.wallets[job.to].currency;
    var credit := Credited(cfg, job, rate);
    forall y
      ensures Balance(after.ledger, y) == Balance(db.ledger, y) - (if y == job.from then job.amount else 0.0)
                                          + (if y == job.to then credit else 0.0)
    {
      TransferredBalance(db, k, job, credit, y);
    }
    forall prices: Worth.Prices | rate.Some? ==> Worth.Agrees(prices, from, to, rate.value)
      ensures Worth.WorthOfTwo(cfg, prices, after.ledger, job.from, job.to)
              == Worth.WorthOfTwo(cfg, prices, db.ledger, job.from, job.to)
    {
      CreditIsWorthIt(cfg, job, rate, prices);
      Worth.MovingKeepsWorth(Balance(db.ledger, job.from), Balance(db.ledger, job.to), job.amount, credit,
                             prices(from), prices(to));
    }
  }

  lemma CreditIsWorthIt(cfg: Config, job: Payload, rate: Option<real>, prices: Worth.Prices)
    requires Convertible(cfg, job, rate)
    requires rate.Some? ==>
               Worth.Agrees(prices, cfg.wallets[job.from].currency, cfg.wallets[job.to].currency, rate.value)
    ensures Credited(cfg, job, rate) * prices(cfg.wallets[job.to].currency)
            == job.amount * prices(cfg.wallets[job.from].currency)
  {
    hide Exchanged;
    var from, to := cfg.wallets[job.from].currency, cfg.wallets[job.to].currency;
    if from != to {
      Worth.ExchangeKeepsWorth(job.amount, rate.value, prices(from), prices(to));
    }
  }

  /** A whole call has either paid, and this is what it did, or left the money where it was. */
  lemma SettledMeans(cfg: Config, db: Db, job: Payload, rate: Option<real>, after: Db)
    requires Settled(cfg, db, job, rate, after)
    ensures var first := Result(cfg, db, job, rate);
            if job.key.Some? && Unused(db, job.key.value) && first.Ok?
            then
              && Convertible(cfg, job, rate)
              && after == Transferred(db, job.key.value, job, Credited(cfg, job, rate))
            else
              && after.ledger == db.ledger && after.transfers == db.transfers && after.version == db.version
              && (first.Ok? && first.id.Some? ==>
                    job.key.Some? && HasTransfer(db.transfers, first.id.value, job.key.value))
  {
    hide Result, Balance, FindTransfer, HasKey, HasTransfer;
    if job.key.Some? && Unused(db, job.key.value) && Result(cfg, db, job, rate).Ok? {
    } else {
      NothingPaid(cfg, db, job, rate, after);
    }
  }

  /** The ends of a call that pays nothing, in the order they are decided. */
  lemma OtherEnds(cfg: Config, db: Db, job: Payload, rate: Option<real>, emailFails: bool, r: Reply, after: Db)
    requires job.key.Some? && r == Reported(Result(cfg, db, job, rate), emailFails)
    requires Settled(cfg, db, job, rate, after)
    ensures var k := job.key.value;
            if k !in db.idem || db.idem[k].status.Processing? || db.idem[k].status.Failed?
            then r.Raised? && after == db.(nextTransferId := after.nextTransferId)
            else if FindTransfer(db.transfers, k).Some? || HasKey(db.ledger, k)
            then
              var found := FindTransfer(db.transfers, k);
              && r == (if emailFails then Raised else Answered(found))
              && after == db.(idem := db.idem[k := IdemRecord(Completed, TransferRef(found))])
            else if !(job.from in cfg.wallets && cfg.wallets[job.from].owner == job.userId
                      && 0.0 < job.amount <= Balance(db.ledger, job.from))
            then
              && r == (if emailFails then Raised else Answered(None))
              && after == db.(idem := db.idem[k := IdemRecord(Failed, Reason)], nextTransferId := after.nextTransferId)
            else
              var convertible := job.to in cfg.wallets
                                 && (cfg.wallets[job.from].currency == cfg.wallets[job.to].currency || rate.Some?);
              && (!convertible || job.txId.Some? || job.to == job.from ==>
                    && r == (if convertible && job.txId.Some? then Answered(None) else Raised)
                    && after == db.(nextTransferId := after.nextTransferId))
              && (Result(cfg, db, job, rate) == Fail(Optimistic) <==>
                    convertible && job.txId.None? && job.to == job.from)
  {
    hide Balance, FindTransfer, HasKey;
  }

  class Service {
    const cfg: Config
    const db: Database
    ghost const w: nat

    // the path so far: its last state is `s` with worker `w` at `x`
    ghost var path: Run
    ghost var s: State
    ghost var x: Worker

    constructor (cfg: Config, db: Database, ghost path: Run, ghost s: State, ghost w: nat, ghost x: Worker)
      requires Path(cfg, path) && Alone(s, w) && Last(path) == Put(s, w, x)
      requires db.Snap() == Overlay(s.db, x) && db.wallets == cfg.wallets.Keys
      ensures Valid() && this.cfg == cfg && this.db == db && this.w == w
      ensures this.path == path && this.s == s && this.x == x
    {
      this.cfg, this.db := cfg, db;
      this.path, this.s, this.w, this.x := path, s, w, x;
    }

    ghost predicate Traced()
      reads this
    {
      Path(cfg, path) && |path.states| > 0 && Alone(s, w) && Last(path) == Put(s, w, x)
    }

    /** The code sees the committed tables with its own writes on top. */
    ghost predicate Valid()
      reads this, db
    {
      Traced() && db.Snap() == Overlay(s.db, x) && db.wallets == cfg.wallets.Keys
    }

    /** The statement that failed has sent the worker where `e` is caught; the rollback is still to come. */
    ghost predicate Failing(e: Error)
      reads this
    {
      Traced() && x == AfterError(cfg, x, e)
    }

    /** One more step of the path, private to this worker. */
    ghost method Moved(y: Worker, rate: real)
      requires Traced() && y.job == x.job
      requires !VisibleStatement(x.pc) && !x.pc.CommitNew? && Local(cfg, Put(s, w, x), w, rate) == Some(y)
      modifies `path, `x
      ensures Traced() && x == y && path.states[0] == old(path.states[0])
    {
      path := Move(cfg, path, s, w, x, y, rate);
      x := y;
    }

    /** One more step that other connections can see. */
    ghost method Shown(step: Step, t: State, y: Worker)
      requires Traced() && y.job == x.job && t.workers == s.workers
      requires Next(cfg, Put(s, w, x), step) == Some(Put(t, w, y))
      modifies `path, `s, `x
      ensures Traced() && s == t && x == y && path.states[0] == old(path.states[0])
    {
      ThenPath(cfg, path, step, Put(t, w, y));
      path := Then(path, step, Put(t, w, y));
      s, x := t, y;
    }

    /** Pending to processing; a completed record lets the transaction go on, any other stops it. */
    method ProcessIdempotencyRecord(k: Key) returns (failed: bool)
      requires Valid() && x.pc.Cas? && x == EndTx(x, Cas) && x.job.key == Some(k)
      modifies this`path, this`x, db`idem
      ensures Traced() && path.states[0] == old(path.states[0]) && SameCall(x, old(x))
      ensures failed ==> Failing(Other)
      ensures failed <==> !(k in s.db.idem && (s.db.idem[k].status.Pending? || s.db.idem[k].status.Completed?))
      ensures !failed ==> Valid() && x == old(x).(pc := FindExisting, locked := x.locked, write := x.write)
      ensures !failed ==> (x.locked <==> s.db.idem[k].status.Pending?)
      ensures db.idem == if k in old(db.idem) && old(db.idem)[k].status.Pending?
                         then old(db.idem)[k := IdemRecord(Processing, old(db.idem)[k].response)] else old(db.idem)
    {
      hide Path, Last, Balance, FindTransfer, HasKey, KeyFree, CheckStatement, WriteStatement, AroundStatement;
      AloneIsFree(s, w, x, k, 0);
      var affected := db.MarkProcessingRecord(k);
      if affected == 0 {
        Moved(x.(pc := ReadStatus), 1.0);
        var existing := db.FindByKey(k);
        failed := !(existing.Some? && existing.value.status.Completed?);
        Moved(if failed then AfterError(cfg, x, Other) else x.(pc := FindExisting), 1.0);
      } else {
        failed := false;
        Moved(x.(pc := FindExisting, locked := true,
                 write := Some(IdemRecord(Processing, s.db.idem[k].response))), 1.0);
      }
    }

    /**
     An earlier transfer, or at least its ledger rows, settle the matter without a new one. Otherwise the record
     is made sure of: one that is missing is inserted as pending.
     */
    method CheckExistingTransactions(k: Key) returns (found: Option<Option<nat>>)
      requires Valid() && x.pc.FindExisting? && x.job.key == Some(k) && !x.failed && !x.bumpedFrom
      modifies this`path, this`x, db`idem
      ensures Valid() && path.states[0] == old(path.states[0]) && SameCall(x, old(x))
      ensures found.Some? <==> !Unused(s.db, k)
      ensures found.Some? ==> found.value == FindTransfer(s.db.transfers, k)
      ensures found.Some? ==> x == Marked(s.db, old(x).(pc := CommitExisting(found.value)), found.value)
      ensures found.None? ==> x == Ensured(s.db, old(x), k)
      ensures found.None? ==>
                db.idem == if k in old(db.idem) then old(db.idem) else old(db.idem)[k := IdemRecord(Pending, Empty)]
    {
      hide Path, Last, Balance, FindTransfer, HasKey, Local, AfterError, Overlay, Alone, CommitRecord;
      LookSteps(cfg, s, w, x, k);
      LookingChangesNothing(s.db, x, FindLedger);
      var existing := FindTransfer(db.transfers, k);
      if existing.Some? {
        LookingChangesNothing(s.db, x, MarkExisting(existing));
        Moved(x.(pc := MarkExisting(existing)), 1.0);
        found := MarkExistingCompleted(k, existing);
        return;
      }
      Moved(x.(pc := FindLedger), 1.0);
      found := CheckExistingLedger(k);
    }

    /** Ledger rows without a transfer answer null. */
    method CheckExistingLedger(k: Key) returns (found: Option<Option<nat>>)
      requires Valid() && x.pc.FindLedger? && x.job.key == Some(k) && !x.failed && !x.bumpedFrom
      modifies this`path, this`x, db`idem
      ensures Valid() && path.states[0] == old(path.states[0]) && SameCall(x, old(x))
      ensures found.Some? <==> HasKey(s.db.ledger, k)
      ensures found.Some? ==> found.value == None
      ensures found.Some? ==> x == Marked(s.db, old(x).(pc := CommitExisting(None)), None)
      ensures found.None? ==> x == Ensured(s.db, old(x), k)
      ensures found.None? ==>
                db.idem == if k in old(db.idem) then old(db.idem) else old(db.idem)[k := IdemRecord(Pending, Empty)]
    {
      hide Path, Last, Balance, FindTransfer, HasKey, Local, AfterError, Overlay, Alone, CommitRecord;
      LookSteps(cfg, s, w, x, k);
      LookingChangesNothing(s.db, x, EnsureRecord);
      if HasKey(db.ledger, k) {
        LookingChangesNothing(s.db, x, MarkExisting(None));
        Moved(x.(pc := MarkExisting(None)), 1.0);
        found := MarkExistingCompleted(k, None);
        return;
      }
      Moved(x.(pc := EnsureRecord), 1.0);
      MakeSureOfRecord(k);
      found := None;
    }

    method MakeSureOfRecord(k: Key)
      requires Valid() && x.pc.EnsureRecord? && x.job.key == Some(k) && !x.failed && !x.bumpedFrom
      modifies this`path, this`x, db`idem
      ensures Valid() && path.states[0] == old(path.states[0]) && x == Ensured(s.db, old(x), k)
      ensures db.idem == if k in old(db.idem) then old(db.idem) else old(db.idem)[k := IdemRecord(Pending, Empty)]
    {
      hide Path, Last, Balance, FindTransfer, HasKey, Local, AfterError;
      EnsureStep(cfg, s, w, x, k);
      var _ := db.CreateRecord(k);
      Moved(Ensured(s.db, x, k), 1.0);
    }

    method MarkExistingCompleted(k: Key, existing: Option<nat>) returns (found: Option<Option<nat>>)
      requires Valid() && x.pc == MarkExisting(existing) && x.job.key == Some(k)
      modifies this`path, this`x, db`idem
      ensures Valid() && path.states[0] == old(path.states[0]) && SameCall(x, old(x))
      ensures found == Some(existing) && x == Marked(s.db, old(x).(pc := CommitExisting(existing)), existing)
    {
      hide Path, Last, Local;
      MarkExistingStep(cfg, s, w, x, k, existing);
      db.MarkCompleted(k, existing);
      Moved(Marked(s.db, x.(pc := CommitExisting(existing)), existing), 1.0);
      found := Some(existing);
    }

    /** The source wallet is the user's, the amount is positive and the balance covers it. */
    method ValidateTransferRequest(job: Payload) returns (failed: bool)
      requires Valid() && x.pc.CheckOwner? && job == x.job && !x.failed && !x.bumpedFrom
      modifies this`path, this`x
      ensures Traced() && path.states[0] == old(path.states[0]) && SameCall(x, old(x))
      ensures failed ==> Failing(Permanent)
      ensures failed <==> !Affordable(cfg, s.db, job)
      ensures !failed ==> Valid() && x == old(x).(pc := ReadFrom, balance := x.balance, balanceAt := x.balanceAt)
    {
      hide Path, Last, Balance, FindTransfer, HasKey, KeyFree, StatusStatement, WriteStatement, AroundStatement;
      if !(job.from in cfg.wallets && cfg.wallets[job.from].owner == job.userId) {
        Moved(AfterError(cfg, x, Permanent), 1.0);
        failed := true;
        return;
      }
      Moved(x.(pc := ReadBalance), 1.0);
      var balance := Balance(db.ledger, job.from);
      failed := job.amount <= 0.0 || balance < job.amount;
      Moved(if failed then AfterError(cfg, x, Permanent)
            else x.(pc := ReadFrom, balance := balance, balanceAt := |s.history|), 1.0);
    }

    method GetWallets(job: Payload) returns (failed: bool, fromVersion: nat, toVersion: nat)
      requires Valid() && x.pc.ReadFrom? && job == x.job && !x.failed && !x.bumpedFrom
      modifies this`path, this`x
      ensures Traced() && path.states[0] == old(path.states[0]) && SameCall(x, old(x))
      ensures failed ==> Failing(Other)
      ensures failed <==> job.from !in cfg.wallets || job.to !in cfg.wallets
      ensures !failed ==> Valid() && x == old(x).(pc := Convert, fromVersion := fromVersion, toVersion := toVersion,
                                                  fromAt := x.fromAt, toAt := x.toAt)
      ensures !failed ==> fromVersion == Ver(s.db.version, job.from) && toVersion == Ver(s.db.version, job.to)
    {
      hide Path, Last, Balance, FindTransfer, HasKey, KeyFree, StatusStatement, WriteStatement, AroundStatement;
      fromVersion := Ver(db.version, job.from);
      Moved(x.(pc := ReadTo, fromVersion := fromVersion, fromAt := |s.history|), 1.0);
      toVersion := Ver(db.version, job.to);
      failed := job.from !in cfg.wallets || job.to !in cfg.wallets;
      Moved(if failed then AfterError(cfg, x, Other)
            else x.(pc := Convert, toVersion := toVersion, toAt := |s.history|), 1.0);
    }

    /** The amount in the target currency; asking for the rate may fail. */
    method GetCreditAmount(job: Payload, rate: Option<real>) returns (failed: bool, credit: real)
      requires Valid() && x.pc.Convert? && job == x.job && !x.failed && !x.bumpedFrom
      requires job.from in cfg.wallets && job.to in cfg.wallets && (rate.Some? ==> rate.value > 0.0)
      modifies this`path, this`s, this`x
      ensures Traced() && path.states[0] == old(path.states[0]) && SameCall(x, old(x)) && s == old(s)
      ensures failed ==> Failing(Other)
      ensures failed <==> !Convertible(cfg, job, rate)
      ensures failed <==> cfg.wallets[job.from].currency != cfg.wallets[job.to].currency && rate.None?
      ensures !failed ==> Valid() && x == old(x).(pc := InsertPair, credit := credit)
      ensures !failed ==> credit == Credited(cfg, job, rate)
      ensures var from, to := cfg.wallets[job.from].currency, cfg.wallets[job.to].currency;
              !failed ==> forall prices: Worth.Prices ::
                            (rate.Some? ==> Worth.Agrees(prices, from, to, rate.value)) ==>
                            credit * prices(to) == job.amount * prices(from)
    {
      hide Path, Last, Balance, FindTransfer, HasKey, KeyFree, StatusStatement, WriteStatement, AroundStatement,
           Exchanged;
      forall prices: Worth.Prices | Convertible(cfg, job, rate) && (rate.Some? ==>
          Worth.Agrees(prices, cfg.wallets[job.from].currency, cfg.wallets[job.to].currency, rate.value))
        ensures Credited(cfg, job, rate) * prices(cfg.wallets[job.to].currency)
                == job.amount * prices(cfg.wallets[job.from].currency)
      {
        CreditIsWorthIt(cfg, job, rate, prices);
      }
      failed, credit := false, job.amount;
      if cfg.wallets[job.from].currency != cfg.wallets[job.to].currency {
        if rate.None? {
          failed := true;
          BreakIsError(cfg, s, w, x);
          Shown(Break(w), s, AfterError(cfg, x, Other));
          return;
        }
        credit := Exchanged(job.amount, rate.value);
      }
      Moved(x.(pc := InsertPair, credit := credit), if rate.Some? then rate.value else 1.0);
    }

    /** The debit and the credit. A refusal reconciles first; under the lock there is nothing to find. */
    method CreateLedgerEntries(k: Key, job: Payload, credit: real) returns (failed: bool)
      requires Valid() && x.pc.InsertPair? && job == x.job && credit == x.credit && x.job.key == Some(k)
      requires !x.failed && !x.bumpedFrom && Unused(s.db, k)
      modifies this`path, this`x, db`ledger
      ensures Traced() && path.states[0] == old(path.states[0]) && SameCall(x, old(x))
      ensures failed ==> Failing(Duplicate)
      ensures failed <==> job.txId.Some?
      ensures !failed ==> Valid() && x == old(x).(pc := InsertTransfer)
    {
      hide Path, Last, Balance, FindTransfer, HasKey, KeyFree, PairFree, PairCollides, StatusStatement,
           CheckStatement, AroundStatement;
      AloneIsFree(s, w, x, k, 0);
      if job.txId.Some? {
        TxIdCollides(cfg.uniqueIndex, db.ledger, job, credit);
      } else {
        FreshPair(cfg.uniqueIndex, db.ledger, job, credit);
      }
      failed := db.CreateTransferEntries(cfg.uniqueIndex, job, credit);
      if failed {
        Moved(x.(pc := ReconcileTransfer(true), failed := true), 1.0);
        ReconcileUnderLock(k);
      } else {
        Moved(x.(pc := InsertTransfer), 1.0);
      }
    }

    /** `reconcile` inside the transaction: neither look finds anything, so the error is thrown on. */
    method ReconcileUnderLock(k: Key)
      requires Traced() && x.pc == ReconcileTransfer(true) && x.job.key == Some(k)
      requires db.ledger == s.db.ledger && db.transfers == s.db.transfers && Unused(s.db, k)
      modifies this`path, this`x
      ensures Failing(Duplicate) && path.states[0] == old(path.states[0]) && SameCall(x, old(x))
    {
      hide Path, Last, Balance, FindTransfer, HasKey, StatusStatement, CheckStatement, WriteStatement;
      var transfer := FindTransfer(db.transfers, k);
      Moved(x.(pc := ReconcileLedger(true)), 1.0);
      var rows := HasKey(db.ledger, k);
      assert transfer.None? && !rows;
      Moved(AfterError(cfg, x, Duplicate), 1.0);
    }

    /** Both versions move, or the transfer is given up: alone, only when the two wallets are one. */
    method UpdateWalletVersions(job: Payload, fromVersion: nat, toVersion: nat) returns (failed: bool)
      requires Valid() && x.pc.BumpFrom? && job == x.job && !x.failed && !x.bumpedFrom
      requires job.from in cfg.wallets && job.to in cfg.wallets
      requires fromVersion == x.fromVersion == Ver(s.db.version, job.from)
      requires toVersion == x.toVersion == Ver(s.db.version, job.to)
      modifies this`path, this`x, db`version
      ensures Traced() && path.states[0] == old(path.states[0]) && SameCall(x, old(x))
      ensures failed ==> Failing(Optimistic)
      ensures failed <==> job.from == job.to
      ensures !failed ==> Valid() && x == old(x).(pc := MarkDone, bumpedFrom := true)
    {
      hide Path, Last, Balance, FindTransfer, HasKey, Local;
      BumpSteps(cfg, s, w, x);
      var updatedFrom := db.IncrementVersionIfMatch(job.from, fromVersion);
      Moved(x.(pc := BumpTo, bumpedFrom := true), 1.0);
      BumpSteps(cfg, s, w, x);
      var updatedTo := db.IncrementVersionIfMatch(job.to, toVersion);
      failed := updatedFrom == 0 || updatedTo == 0;
      Moved(if failed then AfterError(cfg, x, Optimistic) else x.(pc := MarkDone), 1.0);
    }

    /** The writes of the first-time path, up to the commit. */
    method WriteTransfer(k: Key, job: Payload, credit: real, fromVersion: nat, toVersion: nat) returns (r: Outcome)
      requires Valid() && x.pc.InsertPair? && job == x.job && x.job.key == Some(k) && !x.failed && !x.bumpedFrom
      requires Unused(s.db, k) && k in s.db.idem && credit == x.credit
      requires job.from in cfg.wallets && job.to in cfg.wallets
      requires fromVersion == x.fromVersion == Ver(s.db.version, job.from)
      requires toVersion == x.toVersion == Ver(s.db.version, job.to)
      modifies this`path, this`s, this`x, db
      ensures Traced() && path.states[0] == old(path.states[0]) && SameCall(x, old(x))
      ensures s.db == old(s.db).(nextTransferId := db.nextTransferId) && s.history == old(s.history)
      ensures r == if job.txId.Some? then Fail(Duplicate) else if job.from == job.to then Fail(Optimistic)
                   else Ok(Some(old(s.db.nextTransferId)))
      ensures r.Fail? ==> Failing(r.e)
      ensures r.Ok? ==> Valid() && x.pc.CommitNew? && !x.failed && x.transferId == old(s.db.nextTransferId)
                        && x.credit == credit && x.write == Some(IdemRecord(Completed, TransferRef(r.id)))
                        && s.db.nextTransferId == x.transferId + 1
    {
      hide Path, Last, Balance, FindTransfer, HasKey, KeyFree, Local;
      var failed := CreateLedgerEntries(k, job, credit);
      if failed {
        return Fail(Duplicate);
      }
      var id := db.CreateTransfer(k, job);
      InsertStep(cfg, s, w, x);
      Shown(Go(w, 1.0), s.(db := s.db.(nextTransferId := id + 1)), x.(pc := BumpFrom, transferId := id));
      failed := UpdateWalletVersions(job, fromVersion, toVersion);
      if failed {
        return Fail(Optimistic);
      }
      MarkTransferCompleted(k, id);
      r := Ok(Some(id));
    }

    /** The first-time path, from the ownership check to the last write before the commit. */
    method MakeTransfer(k: Key, job: Payload, rate: Option<real>) returns (r: Outcome)
      requires Valid() && x.pc.CheckOwner? && job == x.job && x.job.key == Some(k) && !x.failed && !x.bumpedFrom
      requires Unused(s.db, k) && k in s.db.idem && (rate.Some? ==> rate.value > 0.0)
      modifies this`path, this`s, this`x, db
      ensures Traced() && path.states[0] == old(path.states[0]) && SameCall(x, old(x))
      ensures s.db == old(s.db).(nextTransferId := db.nextTransferId) && s.history == old(s.history)
      ensures r == Verdict(cfg, old(s.db), job, rate)
      ensures r.Fail? ==> Failing(r.e)
      ensures r.Ok? ==> Valid() && x.pc.CommitNew? && !x.failed && x.transferId == old(s.db.nextTransferId)
                        && x.credit == Credited(cfg, job, rate)
                        && x.write == Some(IdemRecord(Completed, TransferRef(r.id)))
                        && s.db.nextTransferId == x.transferId + 1
    {
      hide Path, Last, Balance, FindTransfer, HasKey, KeyFree, Local, Exchanged, Overlay;
      OverlayKeepsSequence(s.db, x);
      var failed := ValidateTransferRequest(job);
      if failed {
        return Fail(Permanent);
      }
      var fromVersion, toVersion;
      failed, fromVersion, toVersion := GetWallets(job);
      if failed {
        return Fail(Other);
      }
      var credit;
      failed, credit := GetCreditAmount(job, rate);
      if failed {
        return Fail(Other);
      }
      r := WriteTransfer(k, job, credit, fromVersion, toVersion);
    }

    method MarkTransferCompleted(k: Key, id: nat)
      requires Valid() && x.pc.MarkDone? && x.job.key == Some(k) && k in s.db.idem && id == x.transferId
      modifies this`path, this`x, db`idem
      ensures Valid() && path.states[0] == old(path.states[0])
      ensures x == old(x).(pc := CommitNew, locked := true, write := Some(IdemRecord(Completed, TransferRef(Some(id)))))
    {
      hide Path, Last, Local;
      MarkDoneStep(cfg, s, w, x, k);
      db.MarkCompleted(k, Some(id));
      Moved(x.(pc := CommitNew, locked := true, write := Some(IdemRecord(Completed, TransferRef(Some(id))))), 1.0);
    }

    /** What `executeTransaction` does between BEGIN and COMMIT. */
    method Statements(k: Key, job: Payload, rate: Option<real>) returns (r: Outcome)
      requires Valid() && x == EndTx(x, Cas) && job == x.job && x.job.key == Some(k)
      requires rate.Some? ==> rate.value > 0.0
      modifies this`path, this`s, this`x, db
      ensures Traced() && path.states[0] == old(path.states[0]) && SameCall(x, old(x))
      ensures s.db == old(s.db).(nextTransferId := db.nextTransferId) && s.history == old(s.history)
      ensures r == Result(cfg, old(s.db), job, rate)
      ensures r.Fail? ==> Failing(r.e)
      ensures r.Ok? ==> Valid() && x.write == Some(IdemRecord(Completed, TransferRef(r.id)))
      ensures r.Ok? && !Unused(old(s.db), k) ==> x.pc == CommitExisting(r.id) && s.db == old(s.db)
      ensures r.Ok? && Unused(old(s.db), k) ==>
                && x.pc.CommitNew? && !x.failed && x.transferId == old(s.db.nextTransferId)
                && Convertible(cfg, job, rate) && x.credit == Credited(cfg, job, rate)
                && s.db.nextTransferId == x.transferId + 1
    {
      hide Path, Last, Balance, FindTransfer, HasKey, KeyFree, Local, Exchanged, Overlay;
      OverlayKeepsSequence(s.db, x);
      var failed := ProcessIdempotencyRecord(k);
      if failed {
        return Fail(Other);
      }
      var existing := CheckExistingTransactions(k);
      if existing.Some? {
        return Ok(existing.value);
      }
      r := MakeTransfer(k, job, rate);
    }

    /**
     `@Transactional`: all of the transaction or none of it. A failure leaves every table as it was but for the
     sequence; a first-time success adds the pair, the transfer, two versions and the answer.
     */
    method InTransaction(job: Payload, rate: Option<real>) returns (r: Outcome)
      requires Valid() && x == EndTx(x, FirstPc(job)) && job == x.job && (rate.Some? ==> rate.value > 0.0)
      modifies this`path, this`s, this`x, db
      ensures Valid() && path.states[0] == old(path.states[0]) && SameCall(x, old(x))
      ensures r == Result(cfg, old(db.Snap()), job, rate)
      ensures r.Fail? ==> x == AfterError(cfg, x, r.e)
                          && db.Snap() == old(db.Snap()).(nextTransferId := db.nextTransferId)
      ensures r.Ok? ==> x == EndTx(x, SendEmail(r.id)) && AfterSuccess(cfg, old(db.Snap()), job, rate, r.id, db.Snap())
    {
      hide Path, Last, Balance, FindTransfer, HasKey, KeyFree, Local, Credited, Affordable, Convertible, HasTransfer;
      if job.key.None? {
        return Fail(Permanent);
      }
      var k := job.key.value;
      var saved := db.Snap();
      r := Statements(k, job, rate);
      if r.Fail? {
        db.Rollback(saved);
      } else {
        Commit(r.id);
      }
    }

    /** `executeTransaction`: when it makes a transfer, and what it does then. */
    method ExecuteTransaction(job: Payload, rate: Option<real>) returns (r: Outcome)
      requires Valid() && x == EndTx(x, FirstPc(job)) && job == x.job && (rate.Some? ==> rate.value > 0.0)
      modifies this`path, this`s, this`x, db
      ensures Valid() && path.states[0] == old(path.states[0]) && SameCall(x, old(x))
      ensures r == Result(cfg, old(db.Snap()), job, rate)
      ensures r.Fail? ==> x == AfterError(cfg, x, r.e)
                          && db.Snap() == old(db.Snap()).(nextTransferId := db.nextTransferId)
      ensures r.Ok? ==> x == EndTx(x, SendEmail(r.id)) && AfterSuccess(cfg, old(db.Snap()), job, rate, r.id, db.Snap())
      // a first-time transfer is made exactly under these conditions, and this is what it does
      ensures if && job.key.Some? && job.key.value in old(db.idem)
                   && (old(db.idem)[job.key.value].status.Pending? || old(db.idem)[job.key.value].status.Completed?)
                   && FindTransfer(old(db.transfers), job.key.value).None? && !HasKey(old(db.ledger), job.key.value)
                   && job.from in cfg.wallets && cfg.wallets[job.from].owner == job.userId
                   && 0.0 < job.amount <= Balance(old(db.ledger), job.from)
                   && job.to in cfg.wallets && job.to != job.from && job.txId.None?
                   && (cfg.wallets[job.from].currency == cfg.wallets[job.to].currency || rate.Some?)
                then
                  var id, before := old(db.nextTransferId), old(db.ledger);
                  && r == Ok(Some(id))
                  && db.version == old(db.version)[job.from := Ver(old(db.version), job.from) + 1]
                                                  [job.to := Ver(old(db.version), job.to) + 1]
                  && db.idem == old(db.idem)[job.key.value := IdemRecord(Completed, TransferRef(Some(id)))]
                  && db.transfers == old(db.transfers) + [TransferRow(id, job.key.value, job.from, job.to, job.amount)]
                  && Balance(db.ledger, job.from) == Balance(before, job.from) - job.amount
                  && Balance(db.ledger, job.to)
                     == Balance(before, job.to)
                        + (if cfg.wallets[job.from].currency == cfg.wallets[job.to].currency then job.amount
                           else job.amount * rate.value)
                  && (forall y :: y != job.from && y != job.to ==> Balance(db.ledger, y) == Balance(before, y))
                  && (forall prices: Worth.Prices ::
                        (rate.Some? ==> Worth.Agrees(prices, cfg.wallets[job.from].currency,
                                                  cfg.wallets[job.to].currency, rate.value)) ==>
                        Worth.WorthOfTwo(cfg, prices, db.ledger, job.from, job.to)
                        == Worth.WorthOfTwo(cfg, prices, before, job.from, job.to))
                else
                  && db.ledger == old(db.ledger) && db.transfers == old(db.transfers) && db.version == old(db.version)
                  && (r.Ok? && r.id.Some? ==>
                        job.key.Some? && HasTransfer(old(db.transfers), r.id.value, job.key.value))
    {
      hide Path, Last, Balance, FindTransfer, HasKey, HasTransfer, Local, Result, Overlay, Alone, Valid, Traced,
           Worth.Agrees, Worth.WorthOfTwo;
      ghost var before := db.Snap();
      r := InTransaction(job, rate);
      PaysExactlyWhen(cfg, before, job, rate);
      if job.key.Some? && r.Ok? && Unused(before, job.key.value) {
        PaidMeans(cfg, before, job.key.value, job, rate, db.Snap());
      } else {
        NothingPaid(cfg, before, job, rate, db.Snap());
      }
    }

    /** COMMIT: what the transaction saw is what everybody sees, and the worker goes on to the e-mail. */
    ghost method Commit(id: Option<nat>)
      requires Valid() && (x.pc == CommitExisting(id) || (x.pc.CommitNew? && !x.failed && id == Some(x.transferId)))
      modifies this`path, this`s, this`x
      ensures Traced() && path.states[0] == old(path.states[0])
      ensures x == EndTx(old(x), SendEmail(id)) && s.db == old(Overlay(s.db, x)) == Overlay(s.db, x)
    {
      hide Path, Last, Local, Balance, FindTransfer, HasKey;
      if x.pc.CommitExisting? {
        CommitExistingStep(cfg, s, w, x);
        Shown(Go(w, 1.0), s.(db := CommitRecord(s.db, x)), EndTx(x, SendEmail(id)));
      } else {
        CommitNewStep(cfg, s, w, x);
        Shown(Go(w, 1.0), Committed(s, x), EndTx(x, SendEmail(id)));
      }
    }

    // ---------- around the transaction ----------

    /** The status e-mail, after which the call has its answer; a failure to send it is the call's failure. */
    method SendTransferStatusEmail(fails: bool)
      requires Valid() && (x.pc.SendEmail? || x.pc.SendFailureEmail?) && x == EndTx(x, x.pc)
      modifies this`path, this`s, this`x
      ensures Valid() && path.states[0] == old(path.states[0])
      ensures x == EndTx(old(x), if fails then Threw else Returned(Answer(old(x.pc))))
    {
      hide Path, Last, Balance, FindTransfer, HasKey, StatusStatement, CheckStatement, WriteStatement;
      if fails {
        BreakIsError(cfg, s, w, x);
        Shown(Break(w), s, EndTx(x, Threw));
      } else {
        Moved(x.(pc := Returned(Answer(x.pc))), 1.0);
      }
    }

    /** A permanent failure is written down outside the transaction, whatever the record said. */
    method RecordPermanentFailure(job: Payload)
      requires Valid() && x == EndTx(x, RecordFailure) && job == x.job
      modifies this`path, this`s, this`x, db`idem
      ensures Valid() && path.states[0] == old(path.states[0]) && x == old(x).(pc := SendFailureEmail)
      ensures db.Snap() == WithFailure(old(db.Snap()), job.key)
      ensures db.idem == if job.key.Some? && job.key.value in old(db.idem)
                         then old(db.idem)[job.key.value := IdemRecord(Failed, Reason)] else old(db.idem)
    {
      hide Path, Last;
      if job.key.Some? {
        AloneIsFree(s, w, x, job.key.value, 0);
        db.MarkAsFailed(job.key.value);
      }
      RecordFailureStep(cfg, s, w, x);
      Shown(Go(w, 1.0), s.(db := WithFailure(s.db, job.key)), x.(pc := SendFailureEmail));
    }

    /** After a duplicate key: the earlier transfer answers, or its ledger rows, or nothing does. */
    method Reconcile(k: Key) returns (reconciled: Option<Option<nat>>)
      requires Valid() && x == EndTx(x, ReconcileTransfer(false)) && x.job.key == Some(k)
      modifies this`path, this`s, this`x, db`idem
      ensures Valid() && path.states[0] == old(path.states[0]) && SameCall(x, old(x))
      ensures reconciled.Some? <==> !Unused(old(db.Snap()), k)
      ensures reconciled.Some? ==> reconciled.value == FindTransfer(db.transfers, k)
      ensures db.Snap() == if reconciled.None? then old(db.Snap())
                           else UpdateRecord(old(db.Snap()), k, IdemRecord(Completed, TransferRef(reconciled.value)))
      ensures reconciled.Some? && k in old(db.idem) ==>
                db.idem == old(db.idem)[k := IdemRecord(Completed, TransferRef(reconciled.value))]
      ensures x == EndTx(x,
              if reconciled.Some? && reconciled.value.Some? then SendEmail(reconciled.value) else Returned(None))
    {
      hide Path, Last, FindTransfer, HasKey, StatusStatement, CheckStatement, WriteStatement;
      AloneIsFree(s, w, x, k, 0);
      var transfer := FindTransfer(db.transfers, k);
      if transfer.Some? {
        Moved(x.(pc := ReconcileMark(false, transfer)), 1.0);
      } else {
        Moved(x.(pc := ReconcileLedger(false)), 1.0);
        if !HasKey(db.ledger, k) {
          Moved(x.(pc := Returned(None)), 1.0);
          return None;
        }
        Moved(x.(pc := ReconcileMark(false, None)), 1.0);
      }
      db.MarkCompleted(k, transfer);
      ReconcileMarkStep(cfg, s, w, x, k);
      Shown(Go(w, 1.0), s.(db := UpdateRecord(s.db, k, IdemRecord(Completed, TransferRef(transfer)))),
            x.(pc := if transfer.Some? then SendEmail(transfer) else Returned(None)));
      reconciled := Some(transfer);
    }

    /** Sleeps before the next attempt. */
    method BackOff(attempt: nat) returns (ms: nat)
      requires Valid() && x == EndTx(x, Backoff) && attempt == x.attempt + 1
      modifies this`path, this`x
      ensures Valid() && path.states[0] == old(path.states[0])
      ensures x == old(x).(pc := Cas, attempt := attempt, slept := old(x.slept) + ms)
      ensures ms == BackoffMs(attempt)
    {
      hide Path, Last, FindTransfer, HasKey, StatusStatement, CheckStatement, WriteStatement;
      ms := BackoffMs(attempt);
      Moved(x.(pc := Cas, attempt := attempt, slept := x.slept + ms), 1.0);
    }

    /** The answer reconciliation finds goes out by e-mail; an empty one does not. */
    method AnswerDuplicate(k: Key, emailFails: bool) returns (r: Reply)
      requires Valid() && x == EndTx(x, ReconcileTransfer(false)) && x.job.key == Some(k)
      modifies this`path, this`s, this`x, db`idem
      ensures Valid() && path.states[0] == old(path.states[0]) && SameCall(x, old(x))
      ensures x.pc == if r.Raised? then Threw else Returned(r.id)
      ensures var found := FindTransfer(db.transfers, k);
              r == if found.Some? && emailFails then Raised else Answered(found)
      ensures db.Snap() == if Unused(old(db.Snap()), k) then old(db.Snap())
                           else UpdateRecord(old(db.Snap()), k,
                                             IdemRecord(Completed, TransferRef(FindTransfer(db.transfers, k))))
    {
      hide Path, Last, FindTransfer, HasKey, Local, Alone, Overlay, UpdateRecord, Put;
      var reconciled := Reconcile(k);
      if reconciled.Some? && reconciled.value.Some? {
        SendTransferStatusEmail(emailFails);
        return if emailFails then Raised else Answered(reconciled.value);
      }
      r := Answered(None);
    }

    /** Every end of a transaction but a retry: the answer and its e-mail, or the error and what is done about it. */
    method Conclude(job: Payload, trx: Outcome, emailFails: bool) returns (r: Reply)
      requires Valid() && job == x.job
      requires x == if trx.Ok? then EndTx(x, SendEmail(trx.id)) else AfterError(cfg, x, trx.e)
      requires trx == Fail(Optimistic) ==> x.attempt >= cfg.maxRetries
      requires trx == Fail(Duplicate) ==> job.key.Some?
      modifies this`path, this`s, this`x, db`idem
      ensures Valid() && path.states[0] == old(path.states[0]) && SameCall(x, old(x))
      ensures x.pc == if r.Raised? then Threw else Returned(r.id)
      ensures trx == Fail(Duplicate) ==>
                var found := FindTransfer(db.transfers, job.key.value);
                && r == (if found.Some? && emailFails then Raised else Answered(found))
                && (!Unused(old(db.Snap()), job.key.value) ==>
                      db.Snap() == UpdateRecord(old(db.Snap()), job.key.value,
                                                IdemRecord(Completed, TransferRef(found))))
      ensures trx != Fail(Duplicate) || Unused(old(db.Snap()), job.key.value) ==>
                && r == Reported(trx, emailFails)
                && db.Snap() == if trx == Fail(Permanent) then WithFailure(old(db.Snap()), job.key) else old(db.Snap())
    {
      hide Path, Last, FindTransfer, HasKey, Local, Alone, Overlay, UpdateRecord, WithFailure, Put, Valid, Traced;
      if trx.Ok? {
        SendTransferStatusEmail(emailFails);
        return if emailFails then Raised else Answered(trx.id);
      }
      if trx.e.Permanent? {
        RecordPermanentFailure(job);
        SendTransferStatusEmail(emailFails);
        return if emailFails then Raised else Answered(None);
      }
      if trx.e.Duplicate? {
        r := AnswerDuplicate(job.key.value, emailFails);
        return;
      }
      r := Raised;
    }

    /**
     The retry loop of `process`. `rates(n)` is what the exchange service says in attempt `n`, `emailFails` whether the
     call's one status e-mail cannot be sent. With no other transaction open only a transfer from a wallet
     to itself is ever retried, and it uses up every attempt.
     */
    method Attempts(job: Payload, rates: nat -> Option<real>, emailFails: bool)
      returns (r: Reply, transactions: nat, slept: nat)
      requires Valid() && x == Begin(cfg, job)
      requires forall n :: rates(n).Some? ==> rates(n).value > 0.0
      modifies this`path, this`s, this`x, db
      ensures Valid() && path.states[0] == old(path.states[0]) && x.job == job
      ensures x.pc == if r.Raised? then Threw else Returned(r.id)
      ensures slept == x.slept == 100 * (Pow2(x.attempt) - 1)
      ensures cfg.maxRetries < 0 ==> r == Answered(None) && transactions == slept == 0 && db.Snap() == old(db.Snap())
      ensures cfg.maxRetries >= 0 ==>
                var first := Result(cfg, old(db.Snap()), job, rates(0));
                && transactions == x.attempt + 1 == (if first == Fail(Optimistic) then cfg.maxRetries + 1 else 1)
                && r == Reported(first, emailFails)
                && Settled(cfg, old(db.Snap()), job, rates(0), db.Snap())
    {
      hide Path, Last, FindTransfer, HasKey, Local, Result, AfterSuccess, BackoffMs, Overlay, Alone;
      var maxRetries := cfg.maxRetries;
      var attempt := 0;
      transactions, slept := 0, 0;
      ghost var before := db.Snap();
      ghost var first := Result(cfg, before, job, rates(0));
      while attempt <= maxRetries
        invariant Valid() && path.states[0] == old(path.states[0])
        invariant x.job == job && x.attempt == attempt == transactions && x.slept == slept == SleptBefore(attempt)
        invariant maxRetries < 0 ==> x.pc == Returned(None) && attempt == 0
        invariant maxRetries >= 0 ==> x == EndTx(x, FirstPc(job)) && attempt <= maxRetries
        invariant db.Snap() == before.(nextTransferId := db.nextTransferId)
        invariant attempt == 0 ==> db.Snap() == before
        invariant attempt > 0 ==> first == Fail(Optimistic)
      {
        ghost var now := db.Snap();
        SameResult(cfg, before, now, job, rates(0), rates(attempt));
        SleptClosedForm(attempt);
        var trx := ExecuteTransaction(job, rates(attempt));
        transactions := transactions + 1;
        if trx == Fail(Optimistic) && attempt < maxRetries {
          attempt := attempt + 1;
          var ms := BackOff(attempt);
          slept := slept + ms;
          continue;
        }
        r := Conclude(job, trx, emailFails);
        return;
      }
      assert maxRetries < 0; // the only way out of the loop by its guard
      r := Answered(None);
    }

    /** A whole call: what it answers, and what it has done, for every job and every state of the tables. */
    method Process(job: Payload, rates: nat -> Option<real>, emailFails: bool)
      returns (r: Reply, transactions: nat, slept: nat)
      requires Valid() && x == Begin(cfg, job)
      requires forall n :: rates(n).Some? ==> rates(n).value > 0.0
      modifies this`path, this`s, this`x, db
      ensures Valid() && path.states[0] == old(path.states[0]) && x.job == job
      ensures x.pc == if r.Raised? then Threw else Returned(r.id)
      ensures slept == x.slept == 100 * (Pow2(x.attempt) - 1)
      ensures cfg.maxRetries < 0 ==> r == Answered(None) && transactions == slept == 0 && db.Snap() == old(db.Snap())
      ensures cfg.maxRetries >= 0 ==>
                var first := Result(cfg, old(db.Snap()), job, rates(0));
                && transactions == x.attempt + 1 == (if first == Fail(Optimistic) then cfg.maxRetries + 1 else 1)
                && r == Reported(first, emailFails)
                && Settled(cfg, old(db.Snap()), job, rates(0), db.Snap())
      // the record decides first, then what is there for the key, then what the user may do
      ensures cfg.maxRetries >= 0 && job.key.Some? ==>
                var k, before := job.key.value, old(db.Snap());
                if k !in before.idem || before.idem[k].status.Processing? || before.idem[k].status.Failed?
                then r.Raised? && db.Snap() == before.(nextTransferId := db.nextTransferId)
                else if FindTransfer(before.transfers, k).Some? || HasKey(before.ledger, k)
                then
                  var found := FindTransfer(before.transfers, k);
                  && r == (if emailFails then Raised else Answered(found))
                  && db.Snap() == before.(idem := before.idem[k := IdemRecord(Completed, TransferRef(found))])
                else if !(job.from in cfg.wallets && cfg.wallets[job.from].owner == job.userId
                          && 0.0 < job.amount <= Balance(before.ledger, job.from))
                then
                  && r == (if emailFails then Raised else Answered(None))
                  && db.Snap() == before.(idem := before.idem[k := IdemRecord(Failed, Reason)],
                                          nextTransferId := db.nextTransferId)
                else
                  var convertible :=
                    job.to in cfg.wallets
                    && (cfg.wallets[job.from].currency == cfg.wallets[job.to].currency || rates(0).Some?);
                  && (!convertible || job.txId.Some? || job.to == job.from ==>
                        && r == (if convertible && job.txId.Some? then Answered(None) else Raised)
                        && db.Snap() == before.(nextTransferId := db.nextTransferId))
                  && (transactions == cfg.maxRetries + 1 > 1 ==> job.to == job.from)
                  && (convertible && job.txId.None? && job.to == job.from ==> transactions == cfg.maxRetries + 1)
      // a transfer is made exactly under these conditions, and this is what it does
      ensures cfg.maxRetries >= 0 ==>
                if && job.key.Some? && job.key.value in old(db.idem)
                   && (old(db.idem)[job.key.value].status.Pending? || old(db.idem)[job.key.value].status.Completed?)
                   && FindTransfer(old(db.transfers), job.key.value).None? && !HasKey(old(db.ledger), job.key.value)
                   && job.from in cfg.wallets && cfg.wallets[job.from].owner == job.userId
                   && 0.0 < job.amount <= Balance(old(db.ledger), job.from)
                   && job.to in cfg.wallets && job.to != job.from && job.txId.None?
                   && (cfg.wallets[job.from].currency == cfg.wallets[job.to].currency || rates(0).Some?)
                then
                  var id, before := old(db.nextTransferId), old(db.ledger);
                  && r == (if emailFails then Raised else Answered(Some(id)))
                  && db.idem == old(db.idem)[job.key.value := IdemRecord(Completed, TransferRef(Some(id)))]
                  && db.transfers == old(db.transfers) + [TransferRow(id, job.key.value, job.from, job.to, job.amount)]
                  && db.version == old(db.version)[job.from := Ver(old(db.version), job.from) + 1]
                                                  [job.to := Ver(old(db.version), job.to) + 1]
                  && Balance(db.ledger, job.from) == Balance(before, job.from) - job.amount
                  && Balance(db.ledger, job.to)
                     == Balance(before, job.to)
                        + (if cfg.wallets[job.from].currency == cfg.wallets[job.to].currency then job.amount
                           else job.amount * rates(0).value)
                  && (forall y :: y != job.from && y != job.to ==> Balance(db.ledger, y) == Balance(before, y))
                  && (forall prices: Worth.Prices ::
                        (rates(0).Some? ==> Worth.Agrees(prices, cfg.wallets[job.from].currency,
                                                  cfg.wallets[job.to].currency, rates(0).value)) ==>
                        Worth.WorthOfTwo(cfg, prices, db.ledger, job.from, job.to)
                        == Worth.WorthOfTwo(cfg, prices, before, job.from, job.to))
                else
                  && db.ledger == old(db.ledger) && db.transfers == old(db.transfers) && db.version == old(db.version)
                  && (r.Answered? && r.id.Some? ==>
                        job.key.Some? && HasTransfer(old(db.transfers), r.id.value, job.key.value))
    {
      hide Path, Last, FindTransfer, HasKey, HasTransfer, Local, Result, Overlay, Alone, Balance, Settled, Valid,
           Traced, Worth.Agrees, Worth.WorthOfTwo;
      ghost var before := db.Snap();
      r, transactions, slept := Attempts(job, rates, emailFails);
      if cfg.maxRetries >= 0 {
        PaysExactlyWhen(cfg, before, job, rates(0));
        SettledMeans(cfg, before, job, rates(0), db.Snap());
        if job.key.Some? {
          OtherEnds(cfg, before, job, rates(0), emailFails, r, db.Snap());
          if Unused(before, job.key.value) && Result(cfg, before, job, rates(0)).Ok? {
            PaidMeans(cfg, before, job.key.value, job, rates(0), db.Snap());
          }
        }
      }
    }

    // ---------- enqueueing ----------

    /**
     A request becomes a job: the user owns the source wallet, the balance passes a first look (`tooLow` is
     what that says), and the record, if the request names one, is pending or new.
     */
    method EnqueueTransfer(job: Payload, tooLow: bool) returns (r: EnqueueReply)
      requires Valid() && x == EndTx(x, x.pc) && !InTx(x.pc)
      modifies this`path, this`s, this`x, db`idem
      ensures Valid() && path.states[0] == old(path.states[0]) && x == old(x)
      ensures s.jobs == if r.Queued? then old(s.jobs) + {job} else old(s.jobs)
      ensures r == Objection(cfg, old(db.Snap()), job, tooLow)
      ensures r.NotOwner? <==> !(job.from in cfg.wallets && cfg.wallets[job.from].owner == job.userId)
      ensures r.InsufficientFunds? <==> !r.NotOwner? && tooLow
      ensures r.Queued? <==>
                && job.from in cfg.wallets && cfg.wallets[job.from].owner == job.userId && !tooLow
                && (job.key.Some? && job.key.value in old(db.idem) ==> old(db.idem)[job.key.value].status.Pending?)
      ensures r.BeingProcessed? || r.AlreadyProcessed? || r.PreviouslyFailed? ==>
                job.key.Some? && job.key.value in old(db.idem)
      ensures r.BeingProcessed? ==> old(db.idem)[job.key.value].status.Processing?
      ensures r.AlreadyProcessed? ==> old(db.idem)[job.key.value].status.Completed?
      ensures r.PreviouslyFailed? ==> old(db.idem)[job.key.value].status.Failed?
      // in a run with trusted statuses: what is queued has not been paid, and what has been settled is not queued
      ensures cfg.statusTrusted && Init(path.states[0]) && r.Queued? && job.key.Some? ==>
                && job.key.value in db.idem && db.idem[job.key.value].status.Pending?
                && FindTransfer(db.transfers, job.key.value).None? && !HasKey(db.ledger, job.key.value)
      ensures cfg.statusTrusted && Init(path.states[0]) && job.key.Some? && WasSettled(old(path), job.key.value) ==>
                !r.Queued? && s.jobs == old(s.jobs)
      ensures db.Snap() == if r.Queued? && job.key.Some? && job.key.value !in old(db.idem)
                           then old(db.Snap()).(idem := old(db.idem)[job.key.value := IdemRecord(Pending, Empty)])
                           else old(db.Snap())
    {
      hide Path, Last, Balance, FindTransfer, HasKey, Local, Init, WasSettled;
      if job.key.Some? && cfg.statusTrusted && Init(path.states[0]) && WasSettled(path, job.key.value) {
        StaysSettled(job.key.value);
      }
      if !(job.from in cfg.wallets && cfg.wallets[job.from].owner == job.userId) {
        return NotOwner;
      }
      if tooLow {
        return InsufficientFunds;
      }
      if job.key.Some? {
        var k := job.key.value;
        var existing := db.FindByKey(k);
        if existing.Some? {
          match existing.value.status {
            case Completed => return AlreadyProcessed;
            case Processing => return BeingProcessed;
            case Failed => return PreviouslyFailed;
            case Pending =>
          }
        } else {
          var _ := db.CreateRecord(k);
          CreateRecordStep(cfg, s, w, x, k);
          Shown(CreateRecord(k), s.(db := s.db.(idem := s.db.idem[k := IdemRecord(Pending, Empty)])), x);
        }
      }
      Shown(AddJob(job), s.(jobs := s.jobs + {job}), x);
      r := Queued;
      if job.key.Some? && cfg.statusTrusted && Init(path.states[0]) {
        PendingIsUnpaid(job.key.value);
      }
    }

    /** A record that has left pending anywhere on the path so far has not come back. */
    lemma StaysSettled(k: Key)
      requires Valid() && Init(path.states[0]) && !InTx(x.pc) && cfg.statusTrusted && WasSettled(path, k)
      ensures k in db.idem && !db.idem[k].status.Pending?
    {
      hide Init, FindTransfer, HasKey;
      KeepsGuarantees(k);
      var i :| 0 <= i < |path.states| && k in path.states[i].db.idem && !path.states[i].db.idem[k].status.Pending?;
      Guarantees.NeverPendingAgain(cfg, path, i, |path.states| - 1, k);
      BetweenTransactions();
    }

    lemma PendingIsUnpaid(k: Key)
      requires Valid() && Init(path.states[0]) && !InTx(x.pc) && cfg.statusTrusted
      requires k in db.idem && db.idem[k].status.Pending?
      ensures FindTransfer(db.transfers, k).None? && !HasKey(db.ledger, k)
    {
      hide Init, FindTransfer, HasKey;
      KeepsGuarantees(k);
    }

    // ---------- what the machine's theorems say of the code ----------

    /** Between transactions the code sees what is committed. */
    lemma BetweenTransactions()
      requires Valid() && Init(path.states[0]) && !InTx(x.pc)
      ensures IsRun(cfg, path) && db.Snap() == path.states[|path.states| - 1].db
    {
      hide FindTransfer, HasKey;
      var i := |path.states| - 1;
      RunOk(cfg, path, i);
      assert WorkerOk(cfg, path.states[0].db, s.history, path.states[i].workers[w]);
    }

    /** Between transactions the tables the code has left keep the guarantees of every run. */
    lemma KeepsGuarantees(k: Key)
      requires Valid() && Init(path.states[0]) && !InTx(x.pc)
      ensures IsRun(cfg, path)
      ensures cfg.uniqueIndex || cfg.statusTrusted ==> Guarantees.OneEffectPerKey(cfg, db.ledger, db.transfers)
      ensures cfg.statusTrusted && k in db.idem ==> Guarantees.RecordTells(cfg, db.Snap(), s.jobs, k)
    {
      hide Guarantees.OneEffectPerKey, Guarantees.RecordTells, FindTransfer, HasKey;
      var i := |path.states| - 1;
      BetweenTransactions();
      if cfg.uniqueIndex {
        Guarantees.AtMostOnceByIndex(cfg, path, i);
      } else if cfg.statusTrusted {
        Guarantees.AtMostOnceByStatus(cfg, path, i);
      }
      if cfg.statusTrusted {
        Guarantees.StatusTellsTheTruth(cfg, path, i, k);
      }
    }
  }
}
