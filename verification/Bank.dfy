/**
 The transfer protocol as an atomic bank: a commit is one atomic money movement under a fresh key, and
 no other step of any worker, handler, crash or enqueue is visible in it.
 */
module Bank {
  import opened Wrappers
  import opened Tables
  import opened TransferProtocol
  import opened History
  import opened Invariant
  import opened IndexLayer
  import opened StatusLayer
  import opened Provenance

  /** What a client can see: the balance of each wallet and which keys have been paid. */
  datatype Bank = Bank(balance: map<WalletId, real>, paid: set<Key>)

  /** One atomic transfer, stated without reference to the protocol. */
  predicate Moves(wallets: map<WalletId, WalletInfo>, b: Bank, c: Bank,
                  k: Key, user: UserId, from: WalletId, to: WalletId, amount: real, credit: real)
  {
    && k !in b.paid && c.paid == b.paid + {k}
    && from in wallets && to in wallets && from != to
    && wallets[from].owner == user
    && amount > 0.0 && credit > 0.0
    && (wallets[from].currency == wallets[to].currency ==> credit == amount)
    && from in b.balance && to in b.balance
    && c.balance == b.balance[from := b.balance[from] - amount][to := b.balance[to] + credit]
  }

  function View(cfg: Config, s: State): Bank
  {
    Bank(map x | x in cfg.wallets :: Balance(s.db.ledger, x),
         set i | 0 <= i < |s.db.transfers| :: s.db.transfers[i].key)
  }

  /** The worker whose transfer a step commits, if it commits one. */
  function Committer(s: State, step: Step): Option<nat>
  {
    match step
    case Go(w, _) => if w < |s.workers| && s.workers[w].pc.CommitNew? then Some(w) else None
    case LoseAck(w) => if w < |s.workers| && s.workers[w].pc.CommitNew? then Some(w) else None
    case _ => None
  }

  predicate MovesFor(cfg: Config, b: Bank, c: Bank, x: Worker)
  {
    Moves(cfg.wallets, b, c, KeyOf(x), x.job.userId, x.job.from, x.job.to, x.job.amount, x.credit)
  }

  lemma CommitMoves(cfg: Config, seed: Db, s: State, w: nat, pc: Pc)
    requires Inv(cfg, seed, s) && w < |s.workers| && s.workers[w].pc.CommitNew?
    requires !KeyUsed(s.history, KeyOf(s.workers[w]))
    ensures MovesFor(cfg, View(cfg, s), View(cfg, CommitTransfer(s, w, pc)), s.workers[w])
  {
    hide LedgerOf, VersionOf, Balance, LogOk, WorkerOk;
    var x := s.workers[w];
    var t := CommitTransfer(s, w, pc);
    assert Fits(cfg, seed, s.history, CommitLog(x)) by {
      assert WorkerOk(cfg, seed, s.history, x);
      CommitFits(cfg, seed, s.history, x);
    }
    forall a | a in cfg.wallets
      ensures View(cfg, t).balance[a]
              == View(cfg, s).balance[a] + Signed(DebitRow(x.job), a) + Signed(CreditRow(x.job, x.credit), a)
    {
      BalancePair(s.db.ledger, DebitRow(x.job), CreditRow(x.job, x.credit), a);
    }
    PaidKeys(s, t, x);
  }

  lemma PaidKeys(s: State, t: State, x: Worker)
    requires s.db.transfers == TransfersOf(s.history) && !KeyUsed(s.history, KeyOf(x))
    requires |t.db.transfers| == |s.db.transfers| + 1 && t.db.transfers[..|s.db.transfers|] == s.db.transfers
    requires t.db.transfers[|s.db.transfers|].key == KeyOf(x)
    ensures var before := set i | 0 <= i < |s.db.transfers| :: s.db.transfers[i].key;
            var after := set i | 0 <= i < |t.db.transfers| :: t.db.transfers[i].key;
            KeyOf(x) !in before && after == before + {KeyOf(x)}
  {
    var n := |s.db.transfers|;
    var before := set i | 0 <= i < n :: s.db.transfers[i].key;
    var after := set i | 0 <= i < n + 1 :: t.db.transfers[i].key;
    forall i | 0 <= i < n
      ensures s.db.transfers[i].key != KeyOf(x) && t.db.transfers[i] == s.db.transfers[i]
    {
      assert s.db.transfers[i].key == s.history[i].key;
      assert t.db.transfers[..n][i] == s.db.transfers[i];
    }
    forall k | k in before
      ensures k in after
    {
      var i :| 0 <= i < n && s.db.transfers[i].key == k;
      assert t.db.transfers[i].key == k;
    }
    assert t.db.transfers[n].key in after;
  }

  /** Every step but a commit of a new transfer leaves the ledger, the transfers and the versions alone. */
  lemma OthersStutter(cfg: Config, s: State, step: Step)
    requires Next(cfg, s, step).Some? && Committer(s, step).None?
    ensures var t := Next(cfg, s, step).value;
            t.db.ledger == s.db.ledger && t.db.transfers == s.db.transfers && t.db.version == s.db.version
            && t.history == s.history
  {
    hide Local, AllFree, MayUpdate;
  }

  /** A worker that commits has a key no committed transfer has used, by either layer. */
  lemma CommitterKeyFresh(cfg: Config, r: Run, i: nat, w: nat)
    requires IsRun(cfg, r) && i < |r.states| && (cfg.uniqueIndex || cfg.statusTrusted)
    requires w < |r.states[i].workers| && r.states[i].workers[w].pc.CommitNew?
    ensures !KeyUsed(r.states[i].history, KeyOf(r.states[i].workers[w]))
  {
    hide KnowsOk, BumpsOk, AnswerOk, LogOk, TablesOk, TransfersOf;
    var s := r.states[i];
    RunOk(cfg, r, i);
    assert WorkerOk(cfg, r.states[0].db, s.history, s.workers[w]);
    if cfg.uniqueIndex {
      IndexRun(cfg, r, i);
      assert PairFresh(s.history, s.workers[w]);
    } else {
      StatusRun(cfg, r, i);
      assert StatusWorker(s.db.idem, s.history, s.jobs, s.workers[w]);
      assert RecordOk(s.db.idem, s.history, KeyOf(s.workers[w]));
    }
  }

  /**
   Refinement: step by step, any run of the protocol looks to a client like a run of the atomic bank, its
   movements made for queued jobs, as long as the unique index exists or the statuses are trusted.
   */
  lemma RefinesAtomicBank(cfg: Config, r: Run, i: nat)
    requires IsRun(cfg, r) && i < |r.steps| && (cfg.uniqueIndex || cfg.statusTrusted)
    ensures var s := r.states[i];
            var b := View(cfg, s);
            var c := View(cfg, r.states[i + 1]);
            match Committer(s, r.steps[i])
            case Some(w) => MovesFor(cfg, b, c, s.workers[w]) && s.workers[w].job in s.jobs
            case None => c == b
  {
    hide Inv, View, Statement, Checked;
    var s := r.states[i];
    RunOk(cfg, r, i);
    assert Next(cfg, s, r.steps[i]) == Some(r.states[i + 1]);
    match Committer(s, r.steps[i]) {
      case Some(w) =>
        var x := s.workers[w];
        CommitterKeyFresh(cfg, r, i, w);
        QueueRun(cfg, r, i);
        assert WorkerQueued(cfg, s.jobs, x);
        if r.steps[i].Go? {
          CommitIsTransfer(cfg, s, w, r.steps[i].rate);
          CommitMoves(cfg, r.states[0].db, s, w, SendEmail(Some(x.transferId)));
        } else {
          CommitMoves(cfg, r.states[0].db, s, w, Threw);
        }
      case None =>
        OthersStutter(cfg, s, r.steps[i]);
        SameTablesSameView(cfg, s, r.states[i + 1]);
    }
  }

  lemma SameTablesSameView(cfg: Config, s: State, t: State)
    requires t.db.ledger == s.db.ledger && t.db.transfers == s.db.transfers
    ensures View(cfg, t) == View(cfg, s)
  {
  }
}
