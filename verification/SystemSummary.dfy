/** The system-wide summary against the transfers the protocol has committed. */
module SystemSummary {
  import opened Wrappers
  import opened Tables
  import opened TransferProtocol
  import opened History
  import opened Invariant
  import opened Analytics
  import Finality
  import Windows

  /** COUNT of the debit entries, joined with nothing. */
  function DebitCount(ledger: seq<LedgerRow>): nat
  {
    if ledger == [] then 0
    else DebitCount(ledger[..|ledger| - 1]) + (if ledger[|ledger| - 1].kind.Debit? then 1 else 0)
  }

  lemma CountPair(ledger: seq<LedgerRow>, d: LedgerRow, c: LedgerRow)
    requires d.kind.Debit? && c.kind.Credit?
    ensures DebitCount(ledger + [d, c]) == DebitCount(ledger) + 1
  {
    var once := ledger + [d];
    assert (once + [c])[..|once|] == once && once[..|ledger|] == ledger;
    assert ledger + [d, c] == once + [c];
  }

  lemma {:induction false} LogCount(seed: seq<LedgerRow>, h: seq<Commit>)
    ensures DebitCount(LedgerOf(seed, h)) == DebitCount(seed) + |h|
  {
    if h != [] {
      var m := |h| - 1;
      LogCount(seed, h[..m]);
      CountPair(LedgerOf(seed, h[..m]), DebitRow(h[m].job), CreditRow(h[m].job, h[m].credit));
    }
  }

  /** The total count shown is the seed's debits plus one for each committed transfer. */
  lemma TotalCountCountsTransfers(cfg: Config, r: Run, i: nat)
    requires IsRun(cfg, r) && i < |r.states|
    ensures DebitCount(r.states[i].db.ledger) == DebitCount(r.states[0].db.ledger) + |r.states[i].db.transfers|
  {
    hide LedgerOf, VersionOf, WorkerOk, LogOk;
    RunOk(cfg, r, i);
    LogCount(r.states[0].db.ledger, r.states[i].history);
  }

  /** Every entry belongs to a wallet: the foreign key. */
  predicate WalletsExist(cfg: Config, ledger: seq<LedgerRow>)
  {
    forall j :: 0 <= j < |ledger| ==> ledger[j].wallet in cfg.wallets
  }

  lemma {:induction false} LogKeepsWallets(cfg: Config, seed: seq<LedgerRow>, h: seq<Commit>)
    requires WalletsExist(cfg, seed)
    requires forall j :: 0 <= j < |h| ==> h[j].job.from in cfg.wallets && h[j].job.to in cfg.wallets
    ensures WalletsExist(cfg, LedgerOf(seed, h))
  {
    if h != [] {
      LogKeepsWallets(cfg, seed, h[..|h| - 1]);
    }
  }

  function Everything(cfg: Config): Scope
  {
    Scope(cfg.wallets, cfg.wallets.Keys)
  }

  lemma {:induction false} DebitsOverall(cfg: Config, ledger: seq<LedgerRow>, rates: Rates)
    requires WalletsExist(cfg, ledger)
    ensures Overall(Everything(cfg), ledger, Some(Debit), rates).count == DebitCount(ledger)
  {
    if ledger != [] {
      DebitsOverall(cfg, ledger[..|ledger| - 1], rates);
    }
  }

  /** The query behind the summary: the debit groups alone. */
  predicate IsDebitBreakdown(s: Scope, ledger: seq<LedgerRow>, rows: seq<Row>)
  {
    && DistinctGroups(rows)
    && (forall i :: 0 <= i < |rows| ==>
          && rows[i].group.kind == Debit
          && Tally(rows[i].count, rows[i].total) == TallyOf(s, ledger, {rows[i].group}, Unconverted))
    && (forall j :: 0 <= j < |ledger| && Joined(s, ledger[j]) && ledger[j].kind == Debit ==>
          GroupOf(s, ledger[j]) in Groups(rows))
  }

  lemma DebitBreakdownAgrees(s: Scope, ledger: seq<LedgerRow>, rows: seq<Row>, rates: Rates)
    requires IsDebitBreakdown(s, ledger, rows)
    ensures Aggregate(rows, rates) == Overall(s, ledger, Some(Debit), rates)
  {
    hide TallyOf, Overall, Aggregate;
    AggregateIsTally(s, ledger, rows, rates);
    KindIsOverall(s, ledger, Groups(rows), Debit, rates);
  }

  /**
   The counts per currency, read at one moment, add up to the seed's debits plus the transfers committed by
   then; the total count, read later, exceeds them by exactly the transfers committed in between.
   */
  lemma SummaryCountsTransfers(cfg: Config, r: Run, i: nat, j: nat, rows: seq<Row>, rates: Rates)
    requires IsRun(cfg, r) && i <= j < |r.states| && WalletsExist(cfg, r.states[0].db.ledger)
    requires IsDebitBreakdown(Everything(cfg), r.states[i].db.ledger, rows)
    ensures var shown, total := Aggregate(rows, rates).count, DebitCount(r.states[j].db.ledger);
            && shown == DebitCount(r.states[0].db.ledger) + |r.states[i].db.transfers|
            && total == shown + |r.states[j].db.transfers| - |r.states[i].db.transfers|
            && total >= shown
  {
    hide LedgerOf, VersionOf, WorkerOk, LogOk, Aggregate, Overall, IsDebitBreakdown, WalletsExist, Everything;
    var h := r.states[i].history;
    RunOk(cfg, r, i);
    forall k | 0 <= k < |h|
      ensures h[k].job.from in cfg.wallets && h[k].job.to in cfg.wallets
    {
      Windows.LogFits(cfg, r, i, k);
    }
    LogKeepsWallets(cfg, r.states[0].db.ledger, h);
    DebitBreakdownAgrees(Everything(cfg), r.states[i].db.ledger, rows, rates);
    DebitsOverall(cfg, r.states[i].db.ledger, rates);
    TotalCountCountsTransfers(cfg, r, i);
    TotalCountCountsTransfers(cfg, r, j);
    Finality.AppendOnly(cfg, r, i, j);
  }
}
