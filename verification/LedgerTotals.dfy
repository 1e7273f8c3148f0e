/** Sums over the ledger: by wallet, by set of wallets, and by kind of entry. */
module LedgerTotals {
  import opened Tables

  ghost function Pick<T>(s: set<T>): (x: T)
    requires s != {}
    ensures x in s
  {
    var x :| x in s;
    x
  }

  /** The summed balances of a set of wallets, each from its own query. */
  ghost function SumBalances(ledger: seq<LedgerRow>, wallets: set<WalletId>): real
  {
    if wallets == {} then 0.0
    else
      var x := Pick(wallets);
      Balance(ledger, x) + SumBalances(ledger, wallets - {x})
  }

  function SignedIn(row: LedgerRow, wallets: set<WalletId>): real
  {
    if row.wallet in wallets then Signed(row, row.wallet) else 0.0
  }

  /** One pass over the ledger for a whole set of wallets. */
  function TotalIn(ledger: seq<LedgerRow>, wallets: set<WalletId>): real
  {
    if ledger == [] then 0.0
    else TotalIn(ledger[..|ledger| - 1], wallets) + SignedIn(ledger[|ledger| - 1], wallets)
  }

  lemma {:induction false} TotalWithout(ledger: seq<LedgerRow>, wallets: set<WalletId>, x: WalletId)
    requires x in wallets
    ensures TotalIn(ledger, wallets) == Balance(ledger, x) + TotalIn(ledger, wallets - {x})
  {
    if ledger != [] {
      TotalWithout(ledger[..|ledger| - 1], wallets, x);
    }
  }

  lemma {:induction false} TotalOfNone(ledger: seq<LedgerRow>)
    ensures TotalIn(ledger, {}) == 0.0
  {
    if ledger != [] {
      TotalOfNone(ledger[..|ledger| - 1]);
    }
  }

  /** The balances of a set of wallets add up to one pass over the ledger. */
  lemma {:induction false} SumIsTotal(ledger: seq<LedgerRow>, wallets: set<WalletId>)
    ensures SumBalances(ledger, wallets) == TotalIn(ledger, wallets)
  {
    if wallets == {} {
      TotalOfNone(ledger);
    } else {
      var x := Pick(wallets);
      SumIsTotal(ledger, wallets - {x});
      TotalWithout(ledger, wallets, x);
    }
  }

  lemma TotalPair(ledger: seq<LedgerRow>, d: LedgerRow, c: LedgerRow, wallets: set<WalletId>)
    ensures TotalIn(ledger + [d, c], wallets) == TotalIn(ledger, wallets) + SignedIn(d, wallets) + SignedIn(c, wallets)
  {
    var once := ledger + [d];
    assert (once + [c])[..|once|] == once && once[..|ledger|] == ledger;
    assert ledger + [d, c] == once + [c];
  }

  /** What a wallet has been debited. */
  function DebitTotal(ledger: seq<LedgerRow>, x: WalletId): real
  {
    if ledger == [] then 0.0
    else
      var row := ledger[|ledger| - 1];
      DebitTotal(ledger[..|ledger| - 1], x) + (if row.wallet == x && row.kind.Debit? then row.amount else 0.0)
  }

  lemma DebitPair(ledger: seq<LedgerRow>, d: LedgerRow, c: LedgerRow, x: WalletId)
    requires d.kind.Debit? && c.kind.Credit?
    ensures DebitTotal(ledger + [d, c], x) == DebitTotal(ledger, x) + (if d.wallet == x then d.amount else 0.0)
  {
    var once := ledger + [d];
    assert (once + [c])[..|once|] == once && once[..|ledger|] == ledger;
    assert ledger + [d, c] == once + [c];
  }

  /** What the transfer table says left a wallet. */
  function OutgoingTotal(transfers: seq<TransferRow>, x: WalletId): real
  {
    if transfers == [] then 0.0
    else
      var t := transfers[|transfers| - 1];
      OutgoingTotal(transfers[..|transfers| - 1], x) + (if t.from == x then t.amount else 0.0)
  }

  /** How many transfers have the wallet at either end. */
  function TransferCount(transfers: seq<TransferRow>, x: WalletId): nat
  {
    if transfers == [] then 0
    else
      var t := transfers[|transfers| - 1];
      TransferCount(transfers[..|transfers| - 1], x) + (if t.from == x || t.to == x then 1 else 0)
  }
}
