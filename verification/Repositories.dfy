/**
 The four repositories as one class over the tables. A transaction's own writes are made in place and
 put back on rollback; the transfer table's sequence is not.
 */
module Repositories {
  import opened Wrappers
  import opened Tables
  import opened TransferProtocol

  class Database {
    // the wallets that have a row; each row's version starts at zero
    const wallets: set<WalletId>
    var idem: map<Key, IdemRecord>
    var ledger: seq<LedgerRow>
    var transfers: seq<TransferRow>
    var version: map<WalletId, nat>
    var nextTransferId: nat

    constructor (wallets: set<WalletId>, seed: Db)
      ensures Snap() == seed && this.wallets == wallets
    {
      this.wallets := wallets;
      idem, ledger, transfers, version := seed.idem, seed.ledger, seed.transfers, seed.version;
      nextTransferId := seed.nextTransferId;
    }

    function Snap(): Db
      reads this
    {
      Db(idem, ledger, transfers, version, nextTransferId)
    }

    method Rollback(saved: Db)
      modifies this
      ensures Snap() == saved.(nextTransferId := old(nextTransferId))
    {
      idem, ledger, transfers, version := saved.idem, saved.ledger, saved.transfers, saved.version;
    }

    // ---------- idempotency ----------

    /** Pending becomes processing; tells how many records changed. */
    method MarkProcessingRecord(k: Key) returns (affected: nat)
      modifies `idem
      ensures affected == if k in old(idem) && old(idem)[k].status.Pending? then 1 else 0
      ensures idem == if affected == 1 then old(idem)[k := IdemRecord(Processing, old(idem)[k].response)] else old(idem)
    {
      affected := 0;
      if k in idem && idem[k].status.Pending? {
        idem := idem[k := idem[k].(status := Processing)];
        affected := 1;
      }
    }

    method FindByKey(k: Key) returns (record: Option<IdemRecord>)
      ensures record == if k in idem then Some(idem[k]) else None
    {
      record := if k in idem then Some(idem[k]) else None;
    }

    method CreateRecord(k: Key) returns (record: IdemRecord)
      modifies `idem
      ensures k in idem && record == idem[k]
      ensures idem == if k in old(idem) then old(idem) else old(idem)[k := IdemRecord(Pending, Empty)]
    {
      if k !in idem {
        idem := idem[k := IdemRecord(Pending, Empty)];
      }
      record := idem[k];
    }

    method MarkCompleted(k: Key, found: Option<nat>)
      modifies `idem
      ensures Snap() == UpdateRecord(old(Snap()), k, IdemRecord(Completed, TransferRef(found)))
      ensures idem == if k in old(idem) then old(idem)[k := IdemRecord(Completed, TransferRef(found))] else old(idem)
    {
      if k in idem {
        idem := idem[k := IdemRecord(Completed, TransferRef(found))];
      }
    }

    method MarkAsFailed(k: Key)
      modifies `idem
      ensures Snap() == UpdateRecord(old(Snap()), k, IdemRecord(Failed, Reason))
      ensures idem == if k in old(idem) then old(idem)[k := IdemRecord(Failed, Reason)] else old(idem)
    {
      if k in idem {
        idem := idem[k := IdemRecord(Failed, Reason)];
      }
    }

    // ---------- wallets, ledger, transfers ----------

    method IncrementVersionIfMatch(x: WalletId, expected: nat) returns (affected: nat)
      modifies `version
      ensures affected == if x in wallets && Ver(old(version), x) == expected then 1 else 0
      ensures version == if affected == 1 then Bump(old(version), x) else old(version)
    {
      affected := 0;
      if x in wallets && Ver(version, x) == expected {
        version := Bump(version, x);
        affected := 1;
      }
    }

    /** Two rows in one statement, or a duplicate-key error and no row. */
    method CreateTransferEntries(keyTypeIndex: bool, job: Payload, credit: real) returns (duplicate: bool)
      modifies `ledger
      ensures duplicate <==> PairCollides(keyTypeIndex, old(ledger), DebitRow(job), CreditRow(job, credit))
      ensures ledger == if duplicate then old(ledger) else old(ledger) + [DebitRow(job), CreditRow(job, credit)]
    {
      duplicate := Collides(keyTypeIndex, ledger, DebitRow(job));
      if !duplicate {
        var before := ledger;
        ledger := ledger + [DebitRow(job)];
        duplicate := Collides(keyTypeIndex, ledger, CreditRow(job, credit));
        if duplicate {
          ledger := before;
        } else {
          ledger := ledger + [CreditRow(job, credit)];
        }
      }
    }

    method CreateTransfer(k: Key, job: Payload) returns (id: nat)
      modifies `transfers, `nextTransferId
      ensures id == old(nextTransferId) && nextTransferId == id + 1
      ensures transfers == old(transfers) + [TransferRow(id, k, job.from, job.to, job.amount)]
    {
      id := nextTransferId;
      nextTransferId := id + 1;
      transfers := transfers + [TransferRow(id, k, job.from, job.to, job.amount)];
    }
  }
}
