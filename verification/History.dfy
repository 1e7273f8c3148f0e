/**
 The tables as functions of the log of committed transfers, and what follows from a stretch of that
 log: which versions moved, and by how much a balance changed.
 */
module History {
  import opened Wrappers
  import opened Tables
  import opened TransferProtocol

  function LedgerOf(seed: seq<LedgerRow>, h: seq<Commit>): seq<LedgerRow>
  {
    if h == [] then seed
    else
      var c := h[|h| - 1];
      LedgerOf(seed, h[..|h| - 1]) + [DebitRow(c.job), CreditRow(c.job, c.credit)]
  }

  function RowOf(c: Commit): TransferRow
  {
    TransferRow(c.transferId, c.key, c.job.from, c.job.to, c.job.amount)
  }

  function TransfersOf(h: seq<Commit>): (r: seq<TransferRow>)
    ensures |r| == |h|
  {
    seq(|h|, i requires 0 <= i < |h| => RowOf(h[i]))
  }

  function VersionOf(seed: map<WalletId, nat>, h: seq<Commit>): map<WalletId, nat>
  {
    if h == [] then seed
    else
      var c := h[|h| - 1];
      Bump(Bump(VersionOf(seed, h[..|h| - 1]), c.job.from), c.job.to)
  }

  predicate Touches(c: Commit, x: WalletId)
  {
    c.job.from == x || c.job.to == x
  }

  predicate KeyUsed(h: seq<Commit>, k: Key)
  {
    exists i :: 0 <= i < |h| && h[i].key == k
  }

  predicate DistinctKeys(h: seq<Commit>)
  {
    forall i, j :: 0 <= i < j < |h| ==> h[i].key != h[j].key
  }

  /** By how much the commits of `h` move the balance of `x`. */
  function Net(h: seq<Commit>, x: WalletId): real
  {
    if h == [] then 0.0
    else
      var c := h[|h| - 1];
      Net(h[..|h| - 1], x) + Signed(DebitRow(c.job), x) + Signed(CreditRow(c.job, c.credit), x)
  }

  /** What the commits of `h` debit from `x`. */
  function DebitsOf(h: seq<Commit>, x: WalletId): real
  {
    if h == [] then 0.0
    else
      var c := h[|h| - 1];
      DebitsOf(h[..|h| - 1], x) + (if c.job.from == x then c.job.amount else 0.0)
  }

  function TouchCount(h: seq<Commit>, x: WalletId): nat
  {
    if h == [] then 0 else TouchCount(h[..|h| - 1], x) + (if Touches(h[|h| - 1], x) then 1 else 0)
  }

  // ---------- appending and splitting ----------

  lemma Append(seed: Db, h: seq<Commit>, c: Commit)
    ensures LedgerOf(seed.ledger, h + [c]) == LedgerOf(seed.ledger, h) + [DebitRow(c.job), CreditRow(c.job, c.credit)]
    ensures TransfersOf(h + [c]) == TransfersOf(h) + [RowOf(c)]
    ensures VersionOf(seed.version, h + [c]) == Bump(Bump(VersionOf(seed.version, h), c.job.from), c.job.to)
  {
    assert (h + [c])[..|h|] == h;
  }

  lemma BalancePair(ledger: seq<LedgerRow>, d: LedgerRow, c: LedgerRow, x: WalletId)
    ensures Balance(ledger + [d, c], x) == Balance(ledger, x) + Signed(d, x) + Signed(c, x)
  {
    assert ledger + [d, c] == (ledger + [d]) + [c];
    BalanceAppend(ledger + [d], c, x);
    BalanceAppend(ledger, d, x);
  }

  lemma {:induction false} BalanceSplit(seed: seq<LedgerRow>, h: seq<Commit>, n: nat, x: WalletId)
    requires n <= |h|
    ensures Balance(LedgerOf(seed, h), x) == Balance(LedgerOf(seed, h[..n]), x) + Net(h[n..], x)
  {
    if n == |h| {
      assert h[..n] == h;
    } else {
      var m := |h| - 1;
      BalanceSplit(seed, h[..m], n, x);
      assert h[..m][..n] == h[..n];
      assert h[n..][..m - n] == h[..m][n..];
      BalancePair(LedgerOf(seed, h[..m]), DebitRow(h[m].job), CreditRow(h[m].job, h[m].credit), x);
    }
  }

  lemma {:induction false} NetConcat(a: seq<Commit>, b: seq<Commit>, x: WalletId)
    ensures Net(a + b, x) == Net(a, x) + Net(b, x)
  {
    if b == [] {
      assert a + b == a;
    } else {
      var m := |b| - 1;
      assert (a + b)[..|a + b| - 1] == a + b[..m];
      NetConcat(a, b[..m], x);
    }
  }

  lemma {:induction false} NetUntouched(h: seq<Commit>, x: WalletId)
    requires forall i :: 0 <= i < |h| ==> !Touches(h[i], x)
    ensures Net(h, x) == 0.0
  {
    if h != [] {
      NetUntouched(h[..|h| - 1], x);
    }
  }

  lemma {:induction false} NetAtLeastDebits(h: seq<Commit>, x: WalletId)
    requires forall i :: 0 <= i < |h| ==> h[i].credit >= 0.0
    ensures Net(h, x) >= -DebitsOf(h, x)
  {
    if h != [] {
      NetAtLeastDebits(h[..|h| - 1], x);
    }
  }

  // ---------- versions count touches ----------

  lemma {:induction false} VersionCounts(seed: map<WalletId, nat>, h: seq<Commit>, x: WalletId)
    requires forall i :: 0 <= i < |h| ==> h[i].job.from != h[i].job.to
    ensures Ver(VersionOf(seed, h), x) == Ver(seed, x) + TouchCount(h, x)
  {
    if h != [] {
      VersionCounts(seed, h[..|h| - 1], x);
    }
  }

  lemma {:induction false} VersionGrows(seed: map<WalletId, nat>, h: seq<Commit>, n: nat, x: WalletId)
    requires n <= |h|
    ensures Ver(VersionOf(seed, h[..n]), x) <= Ver(VersionOf(seed, h), x)
  {
    if n == |h| {
      assert h[..n] == h;
    } else {
      var m := |h| - 1;
      VersionGrows(seed, h[..m], n, x);
      assert h[..m][..n] == h[..n];
    }
  }

  /** An unchanged version means an untouched wallet. */
  lemma {:induction false} SameVersionUntouched(seed: map<WalletId, nat>, h: seq<Commit>, n: nat, x: WalletId)
    requires n <= |h|
    requires Ver(VersionOf(seed, h[..n]), x) == Ver(VersionOf(seed, h), x)
    ensures forall i :: n <= i < |h| ==> !Touches(h[i], x)
  {
    if n < |h| {
      var m := |h| - 1;
      VersionGrows(seed, h[..m], n, x);
      assert h[..m][..n] == h[..n];
      SameVersionUntouched(seed, h[..m], n, x);
    }
  }

  // ---------- keys in the tables ----------

  lemma {:induction false} TableKeys(seed: seq<LedgerRow>, h: seq<Commit>, k: Key)
    requires forall i :: 0 <= i < |seed| ==> seed[i].key.None?
    requires forall i :: 0 <= i < |h| ==> h[i].job.key == Some(h[i].key)
    ensures HasKey(LedgerOf(seed, h), k) <==> KeyUsed(h, k)
    ensures HasEntry(LedgerOf(seed, h), k, Debit) <==> KeyUsed(h, k)
    ensures HasEntry(LedgerOf(seed, h), k, Credit) <==> KeyUsed(h, k)
  {
    if h != [] {
      var m := |h| - 1;
      var before := LedgerOf(seed, h[..m]);
      var all := LedgerOf(seed, h);
      TableKeys(seed, h[..m], k);
      assert all[..|before|] == before;
      assert all[|before|] == DebitRow(h[m].job) && all[|before| + 1] == CreditRow(h[m].job, h[m].credit);
      assert KeyUsed(h, k) <==> KeyUsed(h[..m], k) || h[m].key == k by {
        assert forall i :: 0 <= i < m ==> h[..m][i] == h[i];
      }
      assert forall i :: 0 <= i < |before| ==> all[i] == before[i];
    }
  }

  lemma FoundIffUsed(h: seq<Commit>, k: Key)
    ensures FindTransfer(TransfersOf(h), k).Some? <==> KeyUsed(h, k)
  {
    if KeyUsed(h, k) {
      var i :| 0 <= i < |h| && h[i].key == k;
      assert TransfersOf(h)[i].key == k;
    }
    if FindTransfer(TransfersOf(h), k).Some? {
      var i :| 0 <= i < |h| && TransfersOf(h)[i].key == k;
      assert h[i].key == k;
    }
  }

  /** A row that was found is found again: later rows come after it. */
  lemma {:induction false} FoundStays(t: seq<TransferRow>, row: TransferRow, k: Key)
    requires FindTransfer(t, k).Some?
    ensures FindTransfer(t + [row], k) == FindTransfer(t, k)
  {
    assert (t + [row])[..|t|] == t;
  }

  lemma HasTransferStays(t: seq<TransferRow>, row: TransferRow, id: nat, k: Key)
    requires HasTransfer(t, id, k)
    ensures HasTransfer(t + [row], id, k)
  {
    var i :| 0 <= i < |t| && t[i].id == id && t[i].key == k;
    assert (t + [row])[i] == t[i];
  }

  lemma KeyUsedAppend(h: seq<Commit>, c: Commit, k: Key)
    ensures KeyUsed(h + [c], k) <==> KeyUsed(h, k) || c.key == k
  {
    if KeyUsed(h, k) {
      var i :| 0 <= i < |h| && h[i].key == k;
      assert (h + [c])[i].key == k;
    }
    if c.key == k {
      assert (h + [c])[|h|].key == k;
    }
  }
}
