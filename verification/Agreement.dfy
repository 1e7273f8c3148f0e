/** The ledger, the transfer table and the wallet versions tell the same story in every reachable state. */
module Agreement {
  import opened Tables
  import opened TransferProtocol
  import opened History
  import opened Invariant
  import opened LedgerTotals
  import Windows

  lemma {:induction false} LogDebits(seed: seq<LedgerRow>, h: seq<Commit>, x: WalletId)
    ensures DebitTotal(LedgerOf(seed, h), x) == DebitTotal(seed, x) + OutgoingTotal(TransfersOf(h), x)
  {
    if h != [] {
      var m := |h| - 1;
      LogDebits(seed, h[..m], x);
      assert TransfersOf(h)[..m] == TransfersOf(h[..m]);
      DebitPair(LedgerOf(seed, h[..m]), DebitRow(h[m].job), CreditRow(h[m].job, h[m].credit), x);
    }
  }

  lemma {:induction false} LogTouches(h: seq<Commit>, x: WalletId)
    ensures TouchCount(h, x) == TransferCount(TransfersOf(h), x)
  {
    if h != [] {
      var m := |h| - 1;
      LogTouches(h[..m], x);
      assert TransfersOf(h)[..m] == TransfersOf(h[..m]);
    }
  }

  /** A wallet's debits are its seed debits plus its outgoing transfers. */
  lemma DebitsAreOutgoingTransfers(cfg: Config, r: Run, i: nat, x: WalletId)
    requires IsRun(cfg, r) && i < |r.states|
    ensures DebitTotal(r.states[i].db.ledger, x)
            == DebitTotal(r.states[0].db.ledger, x) + OutgoingTotal(r.states[i].db.transfers, x)
  {
    hide LedgerOf, VersionOf, TransfersOf, WorkerOk, LogOk;
    RunOk(cfg, r, i);
    LogDebits(r.states[0].db.ledger, r.states[i].history, x);
  }

  /** A wallet's version has grown by the number of transfers that touch it. */
  lemma VersionsCountTransfers(cfg: Config, r: Run, i: nat, x: WalletId)
    requires IsRun(cfg, r) && i < |r.states|
    ensures Ver(r.states[i].db.version, x)
            == Ver(r.states[0].db.version, x) + TransferCount(r.states[i].db.transfers, x)
  {
    hide LedgerOf, VersionOf, TransfersOf, WorkerOk, LogOk;
    RunOk(cfg, r, i);
    Windows.VersionIsTouchCount(cfg, r, i, x);
    LogTouches(r.states[i].history, x);
  }

  /** A transfer from a wallet to itself is never committed, whatever its two reads saw. */
  lemma NoSelfTransfer(cfg: Config, r: Run, i: nat, j: nat)
    requires IsRun(cfg, r) && i < |r.states| && j < |r.states[i].db.transfers|
    ensures r.states[i].db.transfers[j].from != r.states[i].db.transfers[j].to
  {
    hide LedgerOf, VersionOf, WorkerOk, LogOk;
    RunOk(cfg, r, i);
    Windows.LogFits(cfg, r, i, j);
  }

  /** Nor does its transaction ever get as far as the last two statements. */
  lemma SelfTransferStopsAtVersions(cfg: Config, r: Run, i: nat, w: nat)
    requires IsRun(cfg, r) && i < |r.states| && w < |r.states[i].workers|
    requires r.states[i].workers[w].job.from == r.states[i].workers[w].job.to
    ensures !r.states[i].workers[w].pc.MarkDone? && !r.states[i].workers[w].pc.CommitNew?
  {
    hide LedgerOf, VersionOf, TransfersOf, KnowsOk, AnswerOk, LogOk;
    RunOk(cfg, r, i);
    assert WorkerOk(cfg, r.states[0].db, r.states[i].history, r.states[i].workers[w]);
  }

  // ---------- conservation ----------

  function WalletsIn(cfg: Config, currency: Currency): set<WalletId>
  {
    set x | x in cfg.wallets && cfg.wallets[x].currency == currency
  }

  /** What conversions have brought into a currency, less what they have taken out of it. */
  function ConvertedIn(cfg: Config, h: seq<Commit>, currency: Currency): real
  {
    if h == [] then 0.0
    else
      var c := h[|h| - 1];
      var leaves := c.job.from in WalletsIn(cfg, currency);
      var arrives := c.job.to in WalletsIn(cfg, currency);
      ConvertedIn(cfg, h[..|h| - 1], currency)
      + (if arrives && !leaves then c.credit else if leaves && !arrives then -c.job.amount else 0.0)
  }

  lemma {:induction false} LogTotal(cfg: Config, seed: Db, h: seq<Commit>, currency: Currency)
    requires forall j :: 0 <= j < |h| ==> Converted(cfg, h[j].job, h[j].credit)
    ensures TotalIn(LedgerOf(seed.ledger, h), WalletsIn(cfg, currency))
            == TotalIn(seed.ledger, WalletsIn(cfg, currency)) + ConvertedIn(cfg, h, currency)
  {
    if h != [] {
      var m := |h| - 1;
      var c := h[m];
      LogTotal(cfg, seed, h[..m], currency);
      TotalPair(LedgerOf(seed.ledger, h[..m]), DebitRow(c.job), CreditRow(c.job, c.credit), WalletsIn(cfg, currency));
    }
  }

  /** The balances of a currency's wallets add up to the seed total plus net conversions. */
  lemma CurrencyTotal(cfg: Config, r: Run, i: nat, currency: Currency)
    requires IsRun(cfg, r) && i < |r.states|
    ensures SumBalances(r.states[i].db.ledger, WalletsIn(cfg, currency))
            == SumBalances(r.states[0].db.ledger, WalletsIn(cfg, currency))
               + ConvertedIn(cfg, r.states[i].history, currency)
  {
    hide LedgerOf, VersionOf, TransfersOf, WorkerOk, LogOk, ConvertedIn, Converted, WalletsIn;
    var h := r.states[i].history;
    RunOk(cfg, r, i);
    forall j | 0 <= j < |h|
      ensures Converted(cfg, h[j].job, h[j].credit)
    {
      Windows.LogFits(cfg, r, i, j);
    }
    LogTotal(cfg, r.states[0].db, h, currency);
    SumIsTotal(r.states[i].db.ledger, WalletsIn(cfg, currency));
    SumIsTotal(r.states[0].db.ledger, WalletsIn(cfg, currency));
  }

  lemma {:induction false} NoConversion(cfg: Config, h: seq<Commit>, currency: Currency)
    requires forall j :: 0 <= j < |h| ==>
               (h[j].job.from in WalletsIn(cfg, currency) <==> h[j].job.to in WalletsIn(cfg, currency))
    ensures ConvertedIn(cfg, h, currency) == 0.0
  {
    if h != [] {
      NoConversion(cfg, h[..|h| - 1], currency);
    }
  }

  /** Transfers inside one currency conserve its total. */
  lemma SameCurrencyConserves(cfg: Config, r: Run, i: nat, currency: Currency)
    requires IsRun(cfg, r) && i < |r.states|
    requires forall j :: 0 <= j < |r.states[i].db.transfers| ==>
               (r.states[i].db.transfers[j].from in WalletsIn(cfg, currency)
                <==> r.states[i].db.transfers[j].to in WalletsIn(cfg, currency))
    ensures SumBalances(r.states[i].db.ledger, WalletsIn(cfg, currency))
            == SumBalances(r.states[0].db.ledger, WalletsIn(cfg, currency))
  {
    hide LedgerOf, VersionOf, WorkerOk, LogOk, ConvertedIn, WalletsIn;
    RunOk(cfg, r, i);
    var h := r.states[i].history;
    forall j | 0 <= j < |h|
      ensures h[j].job.from in WalletsIn(cfg, currency) <==> h[j].job.to in WalletsIn(cfg, currency)
    {
      assert r.states[i].db.transfers[j] == RowOf(h[j]);
    }
    NoConversion(cfg, h, currency);
    CurrencyTotal(cfg, r, i, currency);
  }
}
