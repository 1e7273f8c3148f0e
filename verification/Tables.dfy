/**
 The rows of the transfer tables and the queries that read them.

 Amounts are exact (`real`); an absent column value is `None`.
 */
module Tables {
  import opened Wrappers

  type Key = nat
  type WalletId = int
  type UserId = int
  type Currency = string

  datatype Status = Pending | Processing | Completed | Failed

  /** The JSON `response` column: nothing, `{ transferId }`, or `{ reason }`. */
  datatype Response = Empty | TransferRef(id: Option<nat>) | Reason

  datatype IdemRecord = IdemRecord(status: Status, response: Response)

  datatype EntryType = Debit | Credit

  datatype LedgerRow = LedgerRow(kind: EntryType, wallet: WalletId, amount: real,
                                 key: Option<Key>, txId: Option<nat>)

  datatype TransferRow = TransferRow(id: nat, key: Key, from: WalletId, to: WalletId, amount: real)

  datatype WalletInfo = WalletInfo(owner: UserId, currency: Currency)

  /** What is committed. `nextTransferId` is the serial sequence of the transfer table. */
  datatype Db = Db(idem: map<Key, IdemRecord>, ledger: seq<LedgerRow>, transfers: seq<TransferRow>,
                   version: map<WalletId, nat>, nextTransferId: nat)

  /** A transfer request as it travels in a job. */
  datatype Payload = Payload(key: Option<Key>, userId: UserId, from: WalletId, to: WalletId,
                             amount: real, txId: Option<nat>)

  function Signed(row: LedgerRow, x: WalletId): real
  {
    if row.wallet != x then 0.0 else if row.kind.Credit? then row.amount else -row.amount
  }

  /** Credits minus debits of one wallet; zero when it has no row. */
  function Balance(ledger: seq<LedgerRow>, x: WalletId): real
  {
    if ledger == [] then 0.0
    else Balance(ledger[..|ledger| - 1], x) + Signed(ledger[|ledger| - 1], x)
  }

  lemma BalanceAppend(ledger: seq<LedgerRow>, row: LedgerRow, x: WalletId)
    ensures Balance(ledger + [row], x) == Balance(ledger, x) + Signed(row, x)
  {
    assert (ledger + [row])[..|ledger|] == ledger;
  }

  function Ver(version: map<WalletId, nat>, x: WalletId): nat
  {
    if x in version then version[x] else 0
  }

  predicate HasTransfer(transfers: seq<TransferRow>, id: nat, k: Key)
  {
    exists i :: 0 <= i < |transfers| && transfers[i].id == id && transfers[i].key == k
  }

  predicate HasKey(ledger: seq<LedgerRow>, k: Key)
  {
    exists i :: 0 <= i < |ledger| && ledger[i].key == Some(k)
  }

  predicate HasEntry(ledger: seq<LedgerRow>, k: Key, kind: EntryType)
  {
    exists i :: 0 <= i < |ledger| && ledger[i].key == Some(k) && ledger[i].kind == kind
  }

  predicate HasTxId(ledger: seq<LedgerRow>, t: nat)
  {
    exists i :: 0 <= i < |ledger| && ledger[i].txId == Some(t)
  }

  /** The id of a transfer row with key `k`, if there is one. */
  function FindTransfer(transfers: seq<TransferRow>, k: Key): (r: Option<nat>)
    ensures r.Some? ==> HasTransfer(transfers, r.value, k)
    ensures r.None? ==> forall i :: 0 <= i < |transfers| ==> transfers[i].key != k
  {
    if transfers == [] then None
    else
      var n := |transfers| - 1;
      var before := FindTransfer(transfers[..n], k);
      if before.Some? then
        assert forall i :: 0 <= i < n ==> transfers[..n][i] == transfers[i];
        before
      else if transfers[n].key == k then Some(transfers[n].id)
      else
        assert forall i :: 0 <= i < n ==> transfers[i] == transfers[..n][i];
        None
  }

  /** Whether a unique index refuses `row`: always the one on txId, and the one on (key, type) when it exists. */
  predicate Collides(keyTypeIndex: bool, ledger: seq<LedgerRow>, row: LedgerRow)
  {
    || (row.txId.Some? && HasTxId(ledger, row.txId.value))
    || (keyTypeIndex && row.key.Some? && HasEntry(ledger, row.key.value, row.kind))
  }

  /** Whether inserting the two rows in one statement raises a duplicate-key error. */
  predicate PairCollides(keyTypeIndex: bool, ledger: seq<LedgerRow>, debit: LedgerRow, credit: LedgerRow)
  {
    Collides(keyTypeIndex, ledger, debit) || Collides(keyTypeIndex, ledger + [debit], credit)
  }
}
