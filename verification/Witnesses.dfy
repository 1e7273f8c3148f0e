/**
 Runs that show what the protocol does not promise: a wallet can be overdrawn, a completed record can
 forget the id of its transfer, and a failed record can hide one.
 */
module Witnesses {
  import opened Wrappers
  import opened Tables
  import opened TransferProtocol
  import opened History
  import opened Invariant
  import opened StatusLayer
  import opened Provenance
  import opened Paths

  // ---------- from the queue to the balance read ----------

  /** A first attempt at `job` by the resting worker `w` will pass every check up to the balance. */
  predicate Payable(cfg: Config, s: State, w: nat, job: Payload)
  {
    && w < |s.workers| && Resting(s.workers[w].pc) && job in s.jobs && cfg.maxRetries >= 0
    && job.key.Some?
    && var k := job.key.value;
    && k in s.db.idem && s.db.idem[k].status.Pending? && KeyFree(s, w, k)
    && FindTransfer(s.db.transfers, k).None? && !HasKey(s.db.ledger, k)
    && Owns(cfg, job) && 0.0 < job.amount <= Balance(s.db.ledger, job.from)
  }

  /** The worker once it has read the balance. */
  function Reader(cfg: Config, s: State, job: Payload): Worker
    requires job.key.Some? && job.key.value in s.db.idem
  {
    Begin(cfg, job).(pc := ReadFrom, locked := true,
                     write := Some(IdemRecord(Processing, s.db.idem[job.key.value].response)),
                     balance := Balance(s.db.ledger, job.from), balanceAt := |s.history|)
  }

  lemma ReadPhase(cfg: Config, p: Run, s: State, w: nat, job: Payload) returns (q: Run)
    requires Path(cfg, p) && Last(p) == s && Payable(cfg, s, w, job)
    ensures Path(cfg, q) && q.states[0] == p.states[0] && Last(q) == Put(s, w, Reader(cfg, s, job))
  {
    hide Balance, FindTransfer, HasKey, KeyFree, Path, Last;
    var k := job.key.value;
    var x0 := Begin(cfg, job);
    var x1 := x0.(pc := FindExisting, locked := true,
                  write := Some(IdemRecord(Processing, s.db.idem[k].response)));
    ThenPath(cfg, p, Start(w, job), Put(s, w, x0));
    q := Then(p, Start(w, job), Put(s, w, x0));
    LocksAfterPut(s, w, x0, k, 0);
    q := Move(cfg, q, s, w, x0, x1, 1.0);
    q := Move(cfg, q, s, w, x1, x1.(pc := FindLedger), 1.0);
    q := Move(cfg, q, s, w, x1.(pc := FindLedger), x1.(pc := EnsureRecord), 1.0);
    q := Move(cfg, q, s, w, x1.(pc := EnsureRecord), x1.(pc := CheckOwner), 1.0);
    q := Move(cfg, q, s, w, x1.(pc := CheckOwner), x1.(pc := ReadBalance), 1.0);
    q := Move(cfg, q, s, w, x1.(pc := ReadBalance), Reader(cfg, s, job), 1.0);
  }

  // ---------- from the balance read to the commit ----------

  /** Nothing stands in the way of the reader `w`: two wallets, no lock, no collision. */
  predicate Committable(cfg: Config, s: State, w: nat)
  {
    && w < |s.workers|
    && var x := s.workers[w];
    && x.pc.ReadFrom? && x.locked && x.write.Some? && !x.failed && x.job.key.Some? && x.job.txId.None?
    && Owns(cfg, x.job) && x.job.to in cfg.wallets && x.job.from != x.job.to
    && KeyFree(s, w, KeyOf(x)) && PairFree(s, w, KeyOf(x))
    && WalletFree(s, w, x.job.from) && WalletFree(s, w, x.job.to)
    && !HasKey(s.db.ledger, KeyOf(x))
  }

  /** At a rate of one the credit is the amount, whatever the currencies. */
  lemma AtPar(amount: real)
    ensures Exchanged(amount, 1.0) == amount
  {
  }

  /** The worker just before its commit. */
  function Writer(s: State, w: nat): Worker
    requires w < |s.workers|
  {
    var x := s.workers[w];
    x.(pc := CommitNew, credit := x.job.amount, transferId := s.db.nextTransferId, bumpedFrom := true,
       fromVersion := Ver(s.db.version, x.job.from), fromAt := |s.history|,
       toVersion := Ver(s.db.version, x.job.to), toAt := |s.history|,
       write := Some(Done(Some(s.db.nextTransferId))))
  }

  function Advanced(s: State): State
  {
    s.(db := s.db.(nextTransferId := s.db.nextTransferId + 1))
  }

  function Paid(s: State, w: nat): State
    requires w < |s.workers|
  {
    CommitTransfer(Put(Advanced(s), w, Writer(s, w)), w, SendEmail(Some(s.db.nextTransferId)))
  }

  lemma LocksAfterPut(s: State, w: nat, x: Worker, k: Key, a: WalletId)
    requires w < |s.workers|
    ensures KeyFree(s, w, k) ==> KeyFree(Put(s, w, x), w, k)
    ensures PairFree(s, w, k) ==> PairFree(Put(s, w, x), w, k)
    ensures WalletFree(s, w, a) ==> WalletFree(Put(s, w, x), w, a)
  {
  }

  lemma WritePhase(cfg: Config, p: Run, s: State, w: nat) returns (q: Run)
    requires Path(cfg, p) && Last(p) == s && Committable(cfg, s, w)
    ensures Path(cfg, q) && q.states[0] == p.states[0] && Last(q) == Paid(s, w)
  {
    hide Balance, FindTransfer, HasKey, KeyFree, PairFree, WalletFree, PairCollides, Path, Last, Exchanged;
    var x := s.workers[w];
    var k := KeyOf(x);
    var vf := Ver(s.db.version, x.job.from);
    var vt := Ver(s.db.version, x.job.to);
    var x1 := x.(pc := ReadTo, fromVersion := vf, fromAt := |s.history|);
    var x2 := x1.(pc := Convert, toVersion := vt, toAt := |s.history|);
    var x3 := x2.(pc := InsertPair, credit := x.job.amount);
    assert Put(s, w, x) == s;
    AtPar(x.job.amount);
    q := Move(cfg, p, s, w, x, x1, 1.0);
    q := Move(cfg, q, s, w, x1, x2, 1.0);
    q := Move(cfg, q, s, w, x2, x3, 1.0);
    LocksAfterPut(s, w, x3, k, x.job.from);
    FreshPair(cfg.uniqueIndex, s.db.ledger, x.job, x3.credit);
    q := Move(cfg, q, s, w, x3, x3.(pc := InsertTransfer), 1.0);
    q := LastWrites(cfg, q, s, w, x3.(pc := InsertTransfer));
  }

  /** The worker once its pair has gone in. */
  function Inserted(s: State, w: nat): Worker
    requires w < |s.workers|
  {
    Writer(s, w).(pc := InsertTransfer, transferId := s.workers[w].transferId,
                  bumpedFrom := s.workers[w].bumpedFrom, write := s.workers[w].write)
  }

  lemma LastWrites(cfg: Config, p: Run, s: State, w: nat, x: Worker) returns (q: Run)
    requires Committable(cfg, s, w) && Path(cfg, p) && Last(p) == Put(s, w, x) && x == Inserted(s, w)
    ensures Path(cfg, q) && q.states[0] == p.states[0] && Last(q) == Paid(s, w)
  {
    hide Balance, FindTransfer, HasKey, KeyFree, PairFree, WalletFree, PairCollides, Path, Last, Exchanged;
    var t := Advanced(s);
    var y := x.(pc := BumpFrom, transferId := s.db.nextTransferId);
    assert Next(cfg, Put(s, w, x), Go(w, 1.0)) == Some(Put(t, w, y)) by {
      assert Put(s, w, x).workers[w := y] == s.workers[w := y];
    }
    ThenPath(cfg, p, Go(w, 1.0), Put(t, w, y));
    q := Then(p, Go(w, 1.0), Put(t, w, y));
    q := Bumps(cfg, q, s, w, y);
    assert Next(cfg, Put(t, w, Writer(s, w)), Go(w, 1.0)) == Some(Paid(s, w));
    ThenPath(cfg, q, Go(w, 1.0), Paid(s, w));
    q := Then(q, Go(w, 1.0), Paid(s, w));
  }

  lemma Bumps(cfg: Config, p: Run, s: State, w: nat, y: Worker) returns (q: Run)
    requires Committable(cfg, s, w) && Path(cfg, p) && Last(p) == Put(Advanced(s), w, y)
    requires y == Inserted(s, w).(pc := BumpFrom, transferId := s.db.nextTransferId)
    ensures Path(cfg, q) && q.states[0] == p.states[0] && Last(q) == Put(Advanced(s), w, Writer(s, w))
  {
    hide Balance, FindTransfer, HasKey, KeyFree, PairFree, WalletFree, PairCollides, Path, Last, Exchanged;
    hide StatusStatement, CheckStatement, AroundStatement;
    var k := KeyOf(y);
    var t := Advanced(s);
    var y1 := y.(pc := BumpTo, bumpedFrom := true);
    var y2 := y1.(pc := MarkDone);
    SameLocks(s, t, w, k, y.job.from);
    SameLocks(s, t, w, k, y.job.to);
    LocksAfterPut(t, w, y, k, y.job.from);
    q := Move(cfg, p, t, w, y, y1, 1.0);
    LocksAfterPut(t, w, y1, k, y.job.to);
    q := Move(cfg, q, t, w, y1, y2, 1.0);
    LocksAfterPut(t, w, y2, k, y.job.to);
    q := Move(cfg, q, t, w, y2, Writer(s, w), 1.0);
  }

  lemma SameLocks(s: State, t: State, w: nat, k: Key, a: WalletId)
    requires s.workers == t.workers
    ensures KeyFree(s, w, k) == KeyFree(t, w, k) && WalletFree(s, w, a) == WalletFree(t, w, a)
  {
  }

  // ---------- where the runs begin ----------

  const SLEEPER := Worker(Idle, Payload(None, 0, 0, 0, 0.0, None), 0, 0, false, None, false, 0.0, 0, 0, 0, 0, 0,
                         0.0, 0, false)

  function Grant(x: WalletId, amount: real): LedgerRow
  {
    LedgerRow(Credit, x, amount, None, None)
  }

  predicate Grants(ledger: seq<LedgerRow>)
  {
    forall i :: 0 <= i < |ledger| ==> ledger[i].key.None?
  }

  /** The given jobs are queued, their keys pending; `n` workers rest. */
  function Opening(jobs: set<Payload>, ledger: seq<LedgerRow>, keys: set<Key>, n: nat): State
  {
    State(Db(map k | k in keys :: IdemRecord(Pending, Empty), ledger, [], map[], 0),
          jobs, seq(n, _ => SLEEPER), [])
  }

  lemma OpeningIsInit(jobs: set<Payload>, ledger: seq<LedgerRow>, keys: set<Key>, n: nat)
    requires Grants(ledger)
    ensures Init(Opening(jobs, ledger, keys, n))
  {
  }

  /** Nothing has happened to the tables yet. */
  predicate Untouched(s: State, jobs: set<Payload>, ledger: seq<LedgerRow>, keys: set<Key>, n: nat)
  {
    s.db == Opening(jobs, ledger, keys, n).db && s.jobs == jobs && |s.workers| == n && s.history == [] && Grants(ledger)
  }

  lemma UntouchedPayable(cfg: Config, s: State, jobs: set<Payload>, ledger: seq<LedgerRow>, keys: set<Key>, n: nat,
                         w: nat, job: Payload)
    requires Untouched(s, jobs, ledger, keys, n) && w < n && cfg.maxRetries >= 0 && job in jobs
    requires Resting(s.workers[w].pc) && job.key.Some? && job.key.value in keys && KeyFree(s, w, job.key.value)
    requires Owns(cfg, job) && 0.0 < job.amount <= Balance(ledger, job.from)
    ensures Payable(cfg, s, w, job)
  {
    hide Balance, KeyFree;
  }

  lemma PathIsRun(cfg: Config, p: Run)
    requires Path(cfg, p) && Init(p.states[0])
    ensures IsRun(cfg, p)
  {
  }

  lemma PathNonEmpty(cfg: Config, p: Run)
    requires Path(cfg, p)
    ensures |p.states| > 0
  {
  }

  lemma Start1(cfg: Config, s: State)
    ensures Path(cfg, Run([s], [])) && Last(Run([s], [])) == s
  {
  }

  lemma TwoGrants(x: WalletId, a: real, y: WalletId, b: real)
    requires a > 0.0 && b > 0.0
    ensures Balance([Grant(x, a), Grant(y, b)], x) >= a && Balance([Grant(x, a), Grant(y, b)], y) >= b
    ensures Grants([Grant(x, a), Grant(y, b)])
  {
    BalanceAppend([], Grant(x, a), x);
    BalanceAppend([], Grant(x, a), y);
    BalanceAppend([] + [Grant(x, a)], Grant(y, b), x);
    BalanceAppend([] + [Grant(x, a)], Grant(y, b), y);
    assert [] + [Grant(x, a)] + [Grant(y, b)] == [Grant(x, a), Grant(y, b)];
  }

  lemma OneGrant(x: WalletId, a: real, y: WalletId)
    ensures Balance([Grant(x, a)], y) == if x == y then a else 0.0
    ensures Grants([Grant(x, a)])
  {
    BalanceAppend([], Grant(x, a), y);
    assert [] + [Grant(x, a)] == [Grant(x, a)];
  }

  // ---------- the overdraft ----------

  function Larger(a: real, b: real): real
  {
    if a >= b then a else b
  }

  /** Two queued jobs of different keys that can pay from one wallet. */
  predicate SpendTogether(cfg: Config, jobs: set<Payload>, x: WalletId, a: Payload, b: Payload)
  {
    && cfg.maxRetries >= 0 && a in jobs && b in jobs && a.from == x == b.from
    && a.key.Some? && b.key.Some? && a.key != b.key && Payer(cfg, a, a.key.value) && Payer(cfg, b, b.key.value)
  }

  /** The wallet holds enough for either job, not for both. */
  function Scarce(jobs: set<Payload>, a: Payload, b: Payload, n: nat): State
    requires a.key.Some? && b.key.Some?
  {
    Opening(jobs, [Grant(a.from, Larger(a.amount, b.amount))], {a.key.value, b.key.value}, n)
  }

  /** A reader of `job` that has nothing but its own record's lock. */
  predicate HasRead(x: Worker, job: Payload)
  {
    x.pc.ReadFrom? && x.locked && x.write.Some? && !x.failed && x.job == job
  }

  /** Two of the workers have read the balance; neither has read a version. */
  lemma BothRead(cfg: Config, jobs: set<Payload>, x: WalletId, a: Payload, b: Payload, n: nat)
    returns (q: Run, s: State)
    requires SpendTogether(cfg, jobs, x, a, b) && n >= 2
    ensures Path(cfg, q) && q.states[0] == Scarce(jobs, a, b, n) && Last(q) == s
    ensures s.db == Scarce(jobs, a, b, n).db && s.jobs == jobs && |s.workers| == n
    ensures HasRead(s.workers[0], a) && HasRead(s.workers[1], b)
    ensures forall v :: 2 <= v < n ==> Unburdened(s.workers[v])
  {
    hide Path, Last, Balance;
    var ledger, keys := [Grant(x, Larger(a.amount, b.amount))], {a.key.value, b.key.value};
    s := Opening(jobs, ledger, keys, n);
    OneGrant(x, Larger(a.amount, b.amount), x);
    q := Run([s], []);
    Start1(cfg, s);
    UntouchedPayable(cfg, s, jobs, ledger, keys, n, 0, a);
    q := ReadPhase(cfg, q, s, 0, a);
    s := Put(s, 0, Reader(cfg, s, a));
    UntouchedPayable(cfg, s, jobs, ledger, keys, n, 1, b);
    q := ReadPhase(cfg, q, s, 1, b);
    s := Put(s, 1, Reader(cfg, s, b));
  }

  /** Both commit, and the wallet is short of the smaller amount. */
  lemma SpentTwice(cfg: Config, jobs: set<Payload>, x: WalletId, a: Payload, b: Payload, n: nat) returns (r: Run)
    requires SpendTogether(cfg, jobs, x, a, b) && n >= 2
    ensures IsRun(cfg, r) && |r.states| > 0 && r.states[0] == Scarce(jobs, a, b, n) && Last(r).jobs == jobs
    ensures Balance(Last(r).db.ledger, x) == Larger(a.amount, b.amount) - a.amount - b.amount
  {
    hide Path, Last, Init, Balance;
    var s;
    r, s := BothRead(cfg, jobs, x, a, b, n);
    OneGrant(x, Larger(a.amount, b.amount), x);
    OpeningIsInit(jobs, [Grant(x, Larger(a.amount, b.amount))], {a.key.value, b.key.value}, n);
    r := WritePhase(cfg, r, s, 1);
    var t := Paid(s, 1);
    assert t.db.ledger == s.db.ledger + [DebitRow(b), CreditRow(b, b.amount)];
    assert !HasKey(t.db.ledger, a.key.value);
    r := WritePhase(cfg, r, t, 0);
    BalancePair(s.db.ledger, DebitRow(b), CreditRow(b, b.amount), x);
    BalancePair(t.db.ledger, DebitRow(a), CreditRow(a, a.amount), x);
    PathIsRun(cfg, r);
    PathNonEmpty(cfg, r);
  }

  /** A job of the source wallet's owner. */
  function OwnJob(cfg: Config, k: Key, from: WalletId, to: WalletId, amount: real): Payload
    requires from in cfg.wallets
  {
    Payload(Some(k), cfg.wallets[from].owner, from, to, amount, None)
  }

  /** A configuration in which something can be transferred. */
  predicate Transferring(cfg: Config, from: WalletId, to: WalletId)
  {
    cfg.maxRetries >= 0 && from in cfg.wallets && to in cfg.wallets && from != to
  }

  /**
   No-overdraft fails: in any configuration with two wallets, any two workers can commit two jobs that each
   spend a wallet's whole balance, which leaves it at minus that amount - the least the bound allows.
   */
  lemma OverdraftHappens(cfg: Config, from: WalletId, to: WalletId, amount: real, n: nat) returns (r: Run)
    requires Transferring(cfg, from, to) && amount > 0.0 && n >= 2
    ensures IsRun(cfg, r) && |r.states| > 0 && |r.states[0].workers| == n
    ensures r.states[0].db.ledger == [Grant(from, amount)] && Balance(Last(r).db.ledger, from) == -amount
  {
    hide Path, Last, Init, Balance, IsRun;
    var a, b := OwnJob(cfg, 1, from, to, amount), OwnJob(cfg, 2, from, to, amount);
    r := SpentTwice(cfg, {a, b}, from, a, b, n);
  }

  // ---------- the forgotten transfer id ----------

  /** A job with a txId fails on its own pair. */
  lemma CollidesWithItself(cfg: Config, p: Run, s: State, w: nat) returns (q: Run, z: Worker)
    requires Path(cfg, p) && Last(p) == s && w < |s.workers|
    requires var x := s.workers[w];
             && x.pc.ReadFrom? && x.job.txId.Some? && Owns(cfg, x.job) && x.job.to in cfg.wallets
             && PairFree(s, w, KeyOf(x))
    ensures Path(cfg, q) && q.states[0] == p.states[0] && Last(q) == Put(s, w, z)
    ensures z.pc == ReconcileTransfer(true) && z.job == s.workers[w].job
  {
    hide Balance, FindTransfer, HasKey, KeyFree, PairFree, WalletFree, PairCollides, Path, Last, Exchanged;
    hide StatusStatement, AroundStatement;
    var x := s.workers[w];
    var x1 := x.(pc := ReadTo, fromVersion := Ver(s.db.version, x.job.from), fromAt := |s.history|);
    var x2 := x1.(pc := Convert, toVersion := Ver(s.db.version, x.job.to), toAt := |s.history|);
    var x3 := x2.(pc := InsertPair, credit := x.job.amount);
    z := x3.(pc := ReconcileTransfer(true), failed := true);
    assert Put(s, w, x) == s;
    AtPar(x.job.amount);
    q := Move(cfg, p, s, w, x, x1, 1.0);
    q := Move(cfg, q, s, w, x1, x2, 1.0);
    q := Move(cfg, q, s, w, x2, x3, 1.0);
    LocksAfterPut(s, w, x3, KeyOf(x), x.job.from);
    TxIdCollides(cfg.uniqueIndex, s.db.ledger, x.job, x.job.amount);
    q := Move(cfg, q, s, w, x3, z, 1.0);
  }

  /** Finding nothing inside, it rolls back, finds no transfer outside either, and is about to look at the ledger. */
  lemma LooksTwice(cfg: Config, p: Run, s: State, w: nat, x: Worker) returns (q: Run, z: Worker)
    requires Path(cfg, p) && w < |s.workers| && Last(p) == Put(s, w, x) && x.pc == ReconcileTransfer(true)
    requires !HasKey(s.db.ledger, KeyOf(x)) && FindTransfer(s.db.transfers, KeyOf(x)).None?
    ensures Path(cfg, q) && q.states[0] == p.states[0] && Last(q) == Put(s, w, z)
    ensures z.pc == ReconcileLedger(false) && z.job == x.job && !z.locked
  {
    hide FindTransfer, HasKey, Path, Last, StatusStatement, CheckStatement, WriteStatement;
    z := EndTx(x, ReconcileLedger(false));
    q := Move(cfg, p, s, w, x, x.(pc := ReconcileLedger(true)), 1.0);
    q := Move(cfg, q, s, w, x.(pc := ReconcileLedger(true)), EndTx(x, ReconcileTransfer(false)), 1.0);
    q := Move(cfg, q, s, w, EndTx(x, ReconcileTransfer(false)), z, 1.0);
  }

  /** Its second look finds the ledger row another job has committed meanwhile, and writes the empty answer. */
  lemma MarksNothing(cfg: Config, p: Run, s: State, w: nat) returns (q: Run)
    requires Path(cfg, p) && Last(p) == s && w < |s.workers|
    requires s.workers[w].pc == ReconcileLedger(false) && HasKey(s.db.ledger, KeyOf(s.workers[w]))
    requires AllFree(s, KeyOf(s.workers[w])) && !s.workers[w].locked && KeyOf(s.workers[w]) in s.db.idem
    ensures Path(cfg, q) && q.states[0] == p.states[0] && Last(q).jobs == s.jobs
    ensures var k := KeyOf(s.workers[w]);
            Last(q).db == s.db.(idem := s.db.idem[k := Done(None)])
  {
    hide HasKey, Path, Last;
    var x := s.workers[w];
    var y := x.(pc := ReconcileMark(false, None));
    var t := Put(s.(db := UpdateRecord(s.db, KeyOf(x), Done(None))), w, y.(pc := Returned(None)));
    assert Put(s, w, x) == s;
    q := Move(cfg, p, s, w, x, y, 1.0);
    assert Next(cfg, Put(s, w, y), Go(w, 1.0)) == Some(t) by {
      assert Put(s, w, y).workers[w := y.(pc := Returned(None))] == s.workers[w := y.(pc := Returned(None))];
    }
    ThenPath(cfg, q, Go(w, 1.0), t);
    q := Then(q, Go(w, 1.0), t);
  }

  // ---------- both halves of the forgotten answer ----------

  function TwoPayers(a: Payload, b: Payload): seq<LedgerRow>
  {
    [Grant(a.from, a.amount), Grant(b.from, b.amount)]
  }

  predicate CanClash(cfg: Config, jobs: set<Payload>, k: Key, a: Payload, b: Payload)
  {
    cfg.maxRetries >= 0 && a in jobs && Collider(cfg, a, k) && b in jobs && Payer(cfg, b, k)
  }

  /** Worker 0 has tried the job with a txId and looked once for a transfer; nothing is committed. */
  lemma TriedWithTxId(cfg: Config, jobs: set<Payload>, k: Key, a: Payload, b: Payload, n: nat)
    returns (r: Run, s: State)
    requires CanClash(cfg, jobs, k, a, b) && n >= 2
    ensures Path(cfg, r) && r.states[0] == Opening(jobs, TwoPayers(a, b), {k}, n) && Last(r) == s
    ensures Untouched(s, jobs, TwoPayers(a, b), {k}, n) && Alone(s, 0)
    ensures s.workers[0].pc == ReconcileLedger(false) && s.workers[0].job == a && !s.workers[0].locked
    ensures Resting(s.workers[1].pc)
  {
    hide Path, Last, Balance;
    var ledger := TwoPayers(a, b);
    s := Opening(jobs, ledger, {k}, n);
    TwoGrants(a.from, a.amount, b.from, b.amount);
    Start1(cfg, s);
    UntouchedPayable(cfg, s, jobs, ledger, {k}, n, 0, a);
    r := ReadPhase(cfg, Run([s], []), s, 0, a);
    s := Put(s, 0, Reader(cfg, s, a));
    var z;
    AloneIsFree(s, 0, s.workers[0], k, a.from);
    r, z := CollidesWithItself(cfg, r, s, 0);
    r, z := LooksTwice(cfg, r, s, 0, z);
    s := Put(s, 0, z);
  }

  /** Meanwhile worker 1 commits the job without one. */
  lemma PaysWithout(cfg: Config, jobs: set<Payload>, k: Key, a: Payload, b: Payload, n: nat) returns (r: Run, s: State)
    requires CanClash(cfg, jobs, k, a, b) && n >= 2
    ensures Path(cfg, r) && r.states[0] == Opening(jobs, TwoPayers(a, b), {k}, n) && Last(r) == s
    ensures |s.workers| == n && !s.workers[0].locked && AllFree(s, k) && s.jobs == jobs
    ensures s.workers[0].pc == ReconcileLedger(false) && KeyOf(s.workers[0]) == k
    ensures k in s.db.idem && HasKey(s.db.ledger, k)
  {
    hide Path, Last, Balance;
    r, s := TriedWithTxId(cfg, jobs, k, a, b, n);
    TwoGrants(a.from, a.amount, b.from, b.amount);
    AloneIsFree(s, 1, s.workers[1], k, b.from);
    UntouchedPayable(cfg, s, jobs, TwoPayers(a, b), {k}, n, 1, b);
    r := ReadPhase(cfg, r, s, 1, b);
    s := Put(s, 1, Reader(cfg, s, b));
    AloneIsFree(s, 1, s.workers[1], k, b.from);
    AloneIsFree(s, 1, s.workers[1], k, b.to);
    r := WritePhase(cfg, r, s, 1);
    s := Paid(s, 1);
    assert s.db.ledger[2].key == Some(k);
    AloneIsFree(s, 1, s.workers[1], k, b.from);
  }

  /**
   A completed record need not name its transfer: with a job that collides with itself and one that pays,
   any two workers can leave `{ transferId: null }` beside the committed transfer.
   */
  lemma CompletedForgetsTransfer(cfg: Config, jobs: set<Payload>, k: Key, a: Payload, b: Payload, n: nat)
    returns (r: Run)
    requires CanClash(cfg, jobs, k, a, b) && n >= 2
    ensures IsRun(cfg, r) && |r.states| > 0 && |r.states[0].workers| == n && Last(r).jobs == jobs
    ensures k in Last(r).db.idem && Last(r).db.idem[k] == Done(None)
  {
    hide Path, Last, HasKey, Init;
    var s;
    r, s := PaysWithout(cfg, jobs, k, a, b, n);
    r := MarksNothing(cfg, r, s, 0);
    OpeningIsInit(jobs, TwoPayers(a, b), {k}, n);
    PathIsRun(cfg, r);
    PathNonEmpty(cfg, r);
  }

  // ---------- the failed record ----------

  /** The job is committed, its e-mail fails, and the `failed` handler runs. */
  lemma PaidYetFailed(cfg: Config, jobs: set<Payload>, k: Key, b: Payload, n: nat) returns (r: Run)
    requires cfg.maxRetries >= 0 && b in jobs && Payer(cfg, b, k) && n >= 1
    ensures IsRun(cfg, r) && |r.states| > 0 && |r.states[0].workers| == n && Last(r).jobs == jobs
    ensures k in Last(r).db.idem && Last(r).db.idem[k] == IdemRecord(Failed, Reason)
    ensures FindTransfer(Last(r).db.transfers, k).Some?
  {
    hide Path, Last, Init, Balance;
    var s := Opening(jobs, [Grant(b.from, b.amount)], {k}, n);
    OneGrant(b.from, b.amount, b.from);
    OpeningIsInit(jobs, [Grant(b.from, b.amount)], {k}, n);
    Start1(cfg, s);
    UntouchedPayable(cfg, s, jobs, [Grant(b.from, b.amount)], {k}, n, 0, b);
    r := ReadPhase(cfg, Run([s], []), s, 0, b);
    s := Put(s, 0, Reader(cfg, s, b));
    AloneIsFree(s, 0, s.workers[0], k, b.from);
    AloneIsFree(s, 0, s.workers[0], k, b.to);
    r := WritePhase(cfg, r, s, 0);
    s := Paid(s, 0);
    assert s.db.transfers[0].key == k;
    r, s := EmailFails(cfg, r, s, 0, k);
    PathIsRun(cfg, r);
    PathNonEmpty(cfg, r);
  }

  lemma EmailFails(cfg: Config, p: Run, s: State, w: nat, k: Key) returns (q: Run, t: State)
    requires Path(cfg, p) && Last(p) == s && w < |s.workers| && s.workers[w].pc.SendEmail? && !s.workers[w].locked
    requires Alone(s, w) && k in s.db.idem
    ensures Path(cfg, q) && q.states[0] == p.states[0] && Last(q) == t
    ensures t.db == s.db.(idem := s.db.idem[k := IdemRecord(Failed, Reason)]) && t.jobs == s.jobs
  {
    hide Path, Last;
    t := Put(s, w, EndTx(s.workers[w], Threw));
    ThenPath(cfg, p, Break(w), t);
    q := Then(p, Break(w), t);
    AloneIsFree(t, w, t.workers[w], k, 0);
    var u := t.(db := UpdateRecord(t.db, k, IdemRecord(Failed, Reason)));
    ThenPath(cfg, q, FailureWrite(k), u);
    q := Then(q, FailureWrite(k), u);
    t := u;
  }
}
