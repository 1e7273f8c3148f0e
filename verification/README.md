# Bukia HFT: models and proofs

Bukia HFT is a TypeScript service that moves money between wallets. PostgreSQL holds an append-only
ledger, a transfer table, wallet versions and idempotency records; Redis holds locks, counters, one-time
passwords and a cache; workers take transfer jobs from a queue. This project models three parts of it in
Dafny and proves properties of every run of each.

`dafny verify dfyconfig.toml` checks everything.

## The transfer protocol

`TransferProtocol` is a state machine. The committed tables are shared; each worker has a program counter,
its transaction's private writes, its row locks and the values it has read. One step is one SQL statement,
one e-mail or one back-off sleep; steps of any number of workers interleave in any order, and any step may
fail, lose the acknowledgement of its COMMIT, or crash the worker. Enqueueing creates records and queues
jobs at any moment; a queued job may run any number of times, with or without another job for the same key;
the `failed` event handler writes its status at any moment.

What the machine takes from the code, statement by statement (`src/services/transfer.services.ts`):

- `Cas`, `ReadStatus`: lines 372-391. `FindExisting`, `FindLedger`, `MarkExisting`, `EnsureRecord`,
  `CommitExisting`: lines 194-226 and 284-289.
- `CheckOwner`, `ReadBalance`: lines 449-475. `ReadFrom`, `ReadTo`: lines 329-344. `Convert`: lines 315-327.
- `InsertPair` and the reconciliation inside the transaction: lines 228-252. `InsertTransfer`: lines 254-269.
  `BumpFrom`, `BumpTo`: lines 423-447. `MarkDone`, `CommitNew`: lines 306-312.
- `ReconcileTransfer`, `ReconcileLedger`, `ReconcileMark`: lines 393-414. `RecordFailure`,
  `SendFailureEmail`, `Backoff`, `SendEmail`: lines 61-109.

Modelling assumptions. `src/utils/db.ts:15` names no isolation level, so the database is PostgreSQL at Read
Committed: a statement sees what is committed when it runs; an UPDATE with a matching row waits for the
row's lock and looks at its WHERE clause again; an INSERT waits for an uncommitted row with the same unique
key; after a failed statement the transaction can only roll back, so an error swallowed by
`createLedgerEntries` (lines 245-250, its result is ignored at line 300) makes the next statement fail. A
call to a repository without a `manager` uses another connection and waits even for its own caller's lock.
Amounts are exact reals, an exchange rate is any positive number, and a query for one row yields the first
one inserted. The set of wallets, their owners and their currencies do not change. The initial ledger is
arbitrary apart from carrying no idempotency key, since nothing in the code funds a wallet.

`History` describes the tables as a function of the log of committed transfers, `Invariant` is what every
reachable state satisfies in any configuration, and the modules after it draw the conclusions:

- `Bank`: step by step the protocol is an atomic bank, moving money only for queued jobs
  (`RefinesAtomicBank`).
- `Guarantees`: each key takes effect at most once, by the unique index alone with statuses arbitrary
  (`AtMostOnceByIndex`), and by the status protocol alone with no index (`AtMostOnceByStatus`); what a
  status says about the other tables; what holds under the record's row lock. `IndexLayer` and `StatusLayer`
  hold the two invariants behind it, `Provenance` says which jobs transfers and forgotten answers come from.
- `Finality`: rows are only appended, a key whose record has left `pending` is never paid afterwards, and what
  a failed record says about its key.
- `Windows`: per wallet, the committed transfers have disjoint optimistic windows and consecutive versions;
  the balance a debit leaves behind is known exactly, with the overdraft bound and the serial case.
- `Agreement`: ledger, transfer table and versions agree, and money is conserved per currency; `Worth`: across
  currencies, what it is worth.
- `RetryLoop`: attempts, sleeps, answers, and a measure that every statement lowers.
- `Conditions`: for each promise the protocol does not keep everywhere, the exact condition on configuration,
  queued jobs and number of workers; `Witnesses` builds the runs behind one half of each, step by step.
- `TransferService` over `Repositories`: `process` as imperative code. Every method also extends a path of the
  machine by the steps it takes, so the code run alone is one of the runs the theorems are about
  (`KeepsGuarantees`), and its contracts say, on the tables before and after, exactly when it pays, refuses or
  fails and what it then changes.

Findings (lines of `README.md` are those of the repository's own file):

- The balance is read before the versions the compare-and-set is based on, so the version check does not
  rule out overdrafts. A debit overdraws its wallet exactly when the balance at the version read is below the
  amount, a check the code does not make (`Windows.OverdrawnIff`). Wallets without debt can be overdrawn
  exactly with two workers or more, wherever anything can be transferred at all
  (`Conditions.OverdraftPossibleIff`), and on given jobs exactly when two of different keys can pay from the
  wallet (`Conditions.OverdrawsWalletIff`); a single worker never does it.
- `markAsFailed` has no condition (`src/repositories/idempotency.repository.ts:25-37`), so `completed` can become
  `failed`: the transfer is committed, its e-mail fails, and the `failed` handler reports failure for money that
  has moved. This can happen exactly where money can move at all (`Conditions.MisreportsIff`). A record that
  becomes failed stands for an unpaid key, then and for good, if and only if it was still pending at that
  moment, which is the guard the write lacks (`Finality.FailedSays`); in any state a failed record hides a
  transfer if and only if it was once completed (`Finality.FailedHidesTransferIff`). No record becomes `pending`
  again.
- `UQ_ledger_txId` (`src/migrations/1758835010813-migration.ts:53`) covers both rows of one pair, so a
  transfer with a `txId` collides with itself and never commits (`Invariant.TxIdCollides`). Its
  reconciliation outside the transaction reads two tables in two statements; another job for the key can
  commit in between, and then a `completed` record stores `transferId: null` although the transfer exists.
  This can happen exactly with two workers or more, a retry loop that is entered, a queued job for the key
  with a `txId` and one without that both pass the checks, the latter between two different wallets
  (`Conditions.ForgetsIff`). Otherwise a completed record names its transfer.
- `README.md:64` says unique indexes cover the transfer table's keys. Its migration
  (`src/migrations/1758836188064-migration.ts:18`) creates none; uniqueness is derived here from the ledger
  pair inserted by the same transaction, or from the row lock of the idempotency record.
- `README.md:63` says a worker that fails to mark a record reconciles. The code throws unless the record is
  completed (lines 386-389). Together with the `failed` handler this makes the queue's retries powerless:
  once the handler has written `failed`, no later run of the job pays (`Finality.FailureHandlerIsFinal`).
- A transfer from a wallet to itself that passes validation uses up every attempt and is never committed.

## Timed Redis protocols

`ExpiringCounter` is INCR with EXPIRE on the first hit, in whole seconds, and counting in half-open intervals.
`RateLimit` is the fixed-window limiter, `Lockout` the Lua script and its decorator as a class that changes
its keys in place, `LockoutCalls` a machine of overlapping failing calls, `Otp` the chain from issuing a
password to using its flag, behind the limiter, and `OtpCalls` the same chain with overlapping calls. Each has
a bound over every run and runs that reach it; each class carries the history of its calls, so that the bounds
hold of the object, and `Lockout.KeepTrying` is a user who does not give up. The lockout bound holds exactly
when the lock lasts at least as long as the window (`Lockout.BoundHoldsIff`).

## Derived views

`Cache` is the caching decorator as a machine: lock expiry during a computation, one caller deleting
another's lock, evictions and failing commands included. A lock can have two owners at once; exactly how long
owners may take, and when evictions matter, is `Cache.OneOwnerIff`. `CacheDecorator` is the decorated method
as imperative code with arbitrary steps of other callers between its commands, and `CallTwice` one of its
users. `Analytics` relates the grouped and converted figures to the ledger, and `SystemSummary` relates the
system-wide counts to the transfers the protocol has committed.

## Model

| member | source | states |
|---|---|---|
| Bank.RefinesAtomicBank | src/services/transfer.services.ts:271-313 | in every run, with the unique index or trusted statuses, a step that commits a new transfer moves money once, for a queued job and under a fresh key, from a wallet of the payload's user to another wallet, debit `amount`, credit the converted amount; every other step leaves all balances and paid keys as they were |
| Bank.CommitMoves | src/services/transfer.services.ts:299-312 | the COMMIT of a first-time transfer is one atomic money movement of the bank, given that its key is unused |
| Bank.OthersStutter | src/services/transfer.services.ts:61-109 | no step but such a COMMIT (no retry, rollback, crash, failure write, e-mail or enqueue) changes ledger, transfers or versions |
| Bank.CommitterKeyFresh | src/services/transfer.services.ts:228-252 | a worker about to commit holds a key no committed transfer has used, by either protection layer |
| Guarantees.AtMostOnceByIndex | src/migrations/1758849478430-migration.ts:18-22 | with the (key, type) index and statuses overwritten at will, each key has at most one debit, one credit and one transfer row, all from one payload: the transfer's wallets and amount, the credit positive and equal to the amount within one currency |
| Guarantees.AtMostOnceByStatus | src/repositories/idempotency.repository.ts:73-81 | the same without the index, by the pending-to-processing compare-and-set and its row lock, across retries, duplicate jobs and failures after the commit |
| Guarantees.LogHasOneEffect | src/services/transfer.services.ts:228-269 | transfers with distinct keys leave exactly their own pair and transfer row in the tables |
| Guarantees.StatusTellsTheTruth | src/services/transfer.services.ts:194-226 | in every reachable state a pending record's key has no rows; a completed record has exactly one transfer, made by a queued job that can pay, and names it unless a job that collides with itself was queued too; a failed record's key has ledger rows exactly when it has a transfer; processing is never committed; a key with rows has a record |
| Guarantees.NeverPendingAgain | src/repositories/idempotency.repository.ts:9-37 | no record that has left pending is ever pending again |
| Guarantees.InsideTheLock | src/services/transfer.services.ts:405-411 | past the first look at the tables a transaction alone holds its record's lock over a pending record and its key has no rows, so reconciliation inside the transaction finds nothing and the ledger-row-without-transfer answers are never given there |
| Finality.AppendOnly | src/migrations/1758835010813-migration.ts:41-50 | along every run the ledger and the transfer table only grow at the end |
| Finality.OnlyPendingKeysArePaid | src/services/transfer.services.ts:372-391 | a step gives a key a transfer only while its committed record is pending |
| Finality.SettledForGood | src/services/transfer.services.ts:372-391 | once a record is not pending, the transfer found for its key is the same in every later state |
| Finality.FailureHandlerIsFinal | src/workers/transfer.worker.ts:19-33 | after the failure handler has run for a key without a transfer, no retry or duplicate job ever pays it |
| Finality.FailedSays | src/repositories/idempotency.repository.ts:25-37 | when a record becomes failed, its key has no transfer in any later state if and only if the record was pending just before |
| Finality.FailureWriteSays | src/workers/transfer.worker.ts:19-33 | the same for the handler's write and for the one after a permanent error, on any record not failed already |
| Finality.PaidWasCompleted | src/services/transfer.services.ts:306-312 | a key with a transfer had a completed record at some moment |
| Finality.FailedHidesTransferIff | src/repositories/idempotency.repository.ts:25-37 | in any reachable state a failed record's key has a transfer if and only if the record was completed before |
| Provenance.PaidHasPayer | src/services/transfer.services.ts:271-313 | every key with a committed transfer has a queued job without a txId, of the source's owner, with a positive amount, between two different existing wallets |
| Provenance.ForgottenHasCollider | src/services/transfer.services.ts:228-252 | every record that stores a null transfer id has a queued job with a txId that passes the checks before the pair insert |
| Provenance.OnlyReconcilingForgets | src/services/transfer.services.ts:405-411 | only reconciliation after the transaction ever writes a null transfer id |
| Conditions.OverdraftPossibleIff | src/services/transfer.services.ts:461-474 | n workers can overdraw a wallet, all wallets starting without debt, if and only if n >= 2, the retry loop is entered and there are two wallets |
| Conditions.OverdrawsWalletIff | src/services/transfer.services.ts:461-474 | with the unique index or trusted statuses, n workers on a set of jobs can overdraw a given wallet, no wallet beginning in debt, if and only if n >= 2, the retry loop is entered and the set holds two jobs of different keys that can pay from that wallet |
| Conditions.ForgetsIff | src/services/transfer.services.ts:393-414 | n workers on a set of jobs can leave a null transfer id in the record of a key if and only if n >= 2, the retry loop is entered, and the set holds for that key a job that collides with itself and one that can pay |
| Conditions.OneWorkerRemembers | src/services/transfer.services.ts:393-414 | one worker never writes that answer |
| Conditions.MisreportsIff | src/workers/transfer.worker.ts:19-33 | n workers on a set of jobs can leave a failed record beside a committed transfer of a key if and only if n >= 1, the retry loop is entered, and the set holds a job that can pay |
| IndexLayer.IndexRun | src/migrations/1758849478430-migration.ts:18-22 | with the index, committed keys stay distinct from each other and from every uncommitted pair, and uncommitted pairs from each other |
| IndexLayer.InsertKeeps | src/repositories/ledger.repository.ts:33-54 | the pair insert lets a key in only if it is neither committed nor being inserted elsewhere |
| StatusLayer.StatusRun | src/services/transfer.services.ts:372-391 | without any index, every reachable state keeps records, log, locks and workers in step |
| StatusLayer.FailureKeeps | src/repositories/idempotency.repository.ts:25-37 | the unconditional failure write disturbs no transaction that goes on, because it waits for the record's lock |
| StatusLayer.ReconcileMarkKeeps | src/services/transfer.services.ts:393-414 | what reconciliation writes outside the transaction agrees with the committed transfers |
| StatusLayer.CommitKeepsStatus | src/services/transfer.services.ts:306-312 | a commit turns the pending record it holds into a completed one naming its transfer |
| Invariant.RunOk | src/services/transfer.services.ts:271-313 | in every reachable state of any configuration the tables are those of the log, each logged transfer was checked against the log as it stood at each read, and each worker's remembered values are what it read |
| Invariant.ChecksLocalKnows | src/services/transfer.services.ts:449-475 | after the validation statements the worker knows owner, positive amount, sufficient balance at its read, versions at their reads, and a positive credit equal to the amount within one currency |
| Invariant.WritesLocalOk | src/services/transfer.services.ts:423-447 | the two version updates succeed together only for two different wallets whose versions are still those read |
| Invariant.TxIdCollides | src/migrations/1758835010813-migration.ts:52-54 | a pair with a txId is always refused by the txId index |
| Invariant.CommitKeeps | src/services/transfer.services.ts:299-312 | a commit outdates nothing another transaction has locked |
| Windows.DisjointWindows | src/services/transfer.services.ts:423-447 | of two committed transfers sharing a wallet the later read its version after the earlier's commit, and each saw the seed version plus the number of transfers before it, so versions strictly increase |
| Windows.VersionIsTouchCount | src/repositories/wallet.repository.ts:72-88 | a wallet's committed version is its seed version plus the number of commits touching it |
| Windows.BalanceAfterDebit | src/services/transfer.services.ts:461-474 | right after a debiting commit the wallet holds the balance read, minus the amount, plus what was committed between the balance read and the version read |
| Windows.OverdraftBound | src/services/transfer.services.ts:291-304 | that balance is at least minus the debits committed in that gap, with no side condition |
| Windows.OverdrawnIff | src/services/transfer.services.ts:423-447 | a debit overdraws its wallet exactly when the balance at its version read is below the amount |
| Windows.FreeGapsNeverOverdraw | src/services/transfer.services.ts:461-474 | a wallet that starts at zero or more, none of whose debits has another debit of it between its balance read and its version read, never goes below zero, whatever else overlaps |
| Windows.OneWorkerIsSerial | src/workers/transfer.worker.ts:12-17 | a run with one worker never has two transactions open |
| Windows.SerialRunsNeverOverdraw | src/services/transfer.services.ts:449-475 | with at most one transaction open at any moment, a wallet that starts at zero or more never goes below zero |
| Witnesses.OverdraftHappens | src/services/transfer.services.ts:461-474 | in every configuration with a retry loop and two wallets, for every amount and any number of workers from two up, a run takes a wallet from that amount to minus it |
| Witnesses.SpentTwice | src/services/transfer.services.ts:461-474 | any two paying jobs of different keys on one wallet, whatever else is queued: a run in which the wallet holds the larger amount and both are paid |
| Witnesses.CompletedForgetsTransfer | src/services/transfer.services.ts:393-414 | in every configuration with a retry loop, for every set of jobs with a colliding and a paying job for a key, and from two workers up, a run ends with that key's record completed and storing a null transfer id |
| Witnesses.PaidYetFailed | src/workers/transfer.worker.ts:19-33 | in every configuration with a retry loop, for every paying job, a run ends with its key's transfer committed and its record failed |
| Agreement.DebitsAreOutgoingTransfers | src/services/transfer.services.ts:299-302 | a wallet's debits are the seed's plus its outgoing transfers |
| Agreement.VersionsCountTransfers | src/services/transfer.services.ts:302-304 | a version has grown by the number of transfers that touch its wallet |
| Agreement.NoSelfTransfer | src/services/transfer.services.ts:423-447 | no committed transfer has equal source and target, whatever its two reads saw |
| Agreement.SelfTransferStopsAtVersions | src/services/transfer.services.ts:423-447 | a transfer from a wallet to itself never gets past the version updates |
| Agreement.CurrencyTotal | src/repositories/ledger.repository.ts:71-83 | the summed balances of a currency's wallets are the seed's plus net conversions |
| Agreement.SameCurrencyConserves | src/repositories/ledger.repository.ts:71-83 | transfers that do not cross a currency conserve its total |
| Worth.WorthIsConserved | src/services/currency-convertion.services.ts:9-12 | in every run whose conversion rates agree with some prices of the currencies, all balances together, each at its price, are worth in every reachable state what they were at first |
| Worth.ExchangeKeepsWorth | src/services/currency-convertion.services.ts:9-12 | an amount converted at a rate that two prices agree with is worth what it was |
| Worth.ThereAndBack | src/services/currency-convertion.services.ts:9-12 | converting there and back at inverse rates restores the amount |
| LedgerTotals.SumIsTotal | src/repositories/wallet.repository.ts:31-41 | summing one balance query per wallet equals one pass over the ledger |
| History.BalanceSplit | src/repositories/ledger.repository.ts:71-83 | a balance is the balance at any earlier point of the log plus the net of the commits since |
| History.SameVersionUntouched | src/repositories/wallet.repository.ts:72-88 | an unchanged version means no commit touched the wallet in between |
| History.TableKeys | src/repositories/ledger.repository.ts:66-69 | a ledger lookup by key finds a row exactly when a committed transfer used the key |
| RetryLoop.SleptClosedForm | src/services/transfer.services.ts:189-192 | after r retries the sleeps add up to 100 * (2^r - 1) ms |
| RetryLoop.RetriesAndSleeps | src/services/transfer.services.ts:61-109 | in every run a call has made at most maxRetries retries and slept exactly that long; with maxRetries below zero it never opens a transaction and answers null |
| RetryLoop.AnswersNameCommittedTransfers | src/services/transfer.services.ts:67-108 | an answered transfer id names a committed transfer of the job's own key |
| RetryLoop.StatementsRunOut | src/services/transfer.services.ts:61-109 | every statement of a call lowers its measure, so a call ends |
| RetryLoop.MeasureBounds | src/services/transfer.services.ts:61-109 | the measure is between zero and thirty per attempt, for maxRetries + 1 attempts |
| TransferService.Service.ProcessIdempotencyRecord | src/services/transfer.services.ts:372-391 | stops exactly when the record is neither pending nor completed; locks it exactly when it was pending |
| TransferService.Service.CheckExistingTransactions | src/services/transfer.services.ts:194-226 | settles the call exactly when the key has a transfer or ledger row, answering the transfer's id or null; otherwise the record exists afterwards, inserted as pending if it was missing |
| TransferService.Service.ValidateTransferRequest | src/services/transfer.services.ts:449-475 | fails permanently exactly when the user does not own the source, the amount is not positive or the balance does not cover it |
| TransferService.Service.GetWallets | src/services/transfer.services.ts:329-344 | fails exactly when either wallet does not exist; otherwise both versions are the committed ones |
| TransferService.Service.GetCreditAmount | src/services/transfer.services.ts:315-327 | an error exactly when the currencies differ and there is no rate; otherwise the amount itself within one currency, and across two an amount worth the same at any prices the rate agrees with |
| TransferService.Service.CreateLedgerEntries | src/services/transfer.services.ts:228-252 | alone and under a fresh key, refused exactly when the payload carries a txId, and then reconciliation finds nothing and the error goes on |
| TransferService.Service.UpdateWalletVersions | src/services/transfer.services.ts:423-447 | alone, an optimistic failure exactly when source and target are one wallet |
| TransferService.PaysExactlyWhen | src/services/transfer.services.ts:271-313 | the outcome is a first-time payment if and only if the record is pending or completed, nothing is there for the key, the source is the user's and covers a positive amount, the target is another existing wallet, no txId is given, and the currencies are one or a rate is at hand |
| TransferService.Service.ExecuteTransaction | src/services/transfer.services.ts:271-313 | under exactly those conditions, written out on the tables, it answers the sequence's next id, the source has the amount less, the target the credit more, nobody else anything, the pair of wallets keeps its worth, and the record names the id; otherwise ledger, transfers and versions are as they were and an id in the answer is an earlier transfer's |
| TransferService.Service.InTransaction | src/utils/db.ts:12-22 | all or nothing: a failure leaves everything but the sequence as it was |
| TransferService.Service.Reconcile | src/services/transfer.services.ts:393-414 | answers the earlier transfer, or null for a ledger row alone, writing that answer to the record; otherwise changes nothing |
| TransferService.Service.RecordPermanentFailure | src/repositories/idempotency.repository.ts:25-37 | a permanent failure is written whatever the record said, and only there |
| TransferService.Service.Conclude | src/services/transfer.services.ts:75-104 | the answer or error for every end of a transaction other than a retry, and its effect on the tables |
| TransferService.Service.Attempts | src/services/transfer.services.ts:61-109 | the retry loop alone: maxRetries + 1 transactions and 100 * (2^maxRetries - 1) ms of sleep for a transfer to the same wallet, one transaction and no sleep for anything else; the loop's guard ends it only when maxRetries is negative |
| TransferService.Service.Process | src/services/transfer.services.ts:61-109 | for every job and every state of the tables, in terms of the tables: when it pays, with the same effects as above and the id as answer unless the e-mail fails; what it answers and writes for a record that is not open, a key that has rows, a request the user may not make, a missing wallet or rate, a txId, and a transfer to the same wallet |
| TransferService.Service.EnqueueTransfer | src/services/transfer.services.ts:43-60 | queues the job exactly when the user owns the source, the first look at the balance passes and the record, if named and there, is pending, and says which of these failed; creates a missing record; with trusted statuses the key of a queued job is pending and unpaid, and a key whose record has ever left pending is never queued again |
| TransferService.Service.StaysSettled | src/services/transfer.services.ts:346-365 | a record that left pending anywhere on the path of the code has not come back |
| TransferService.Service.KeepsGuarantees | src/services/transfer.services.ts:61-109 | the code's path from an initial state is a run of the machine, and between transactions its tables have one effect per key and truthful records |
| Repositories.Database.MarkProcessingRecord | src/repositories/idempotency.repository.ts:73-81 | changes exactly a pending record, and says whether it did |
| Repositories.Database.CreateRecord | src/repositories/idempotency.repository.ts:9-18 | inserts a pending record or leaves the one that is there, and returns it |
| Repositories.Database.MarkCompleted | src/repositories/idempotency.repository.ts:59-71 | completes the record if it exists, and touches nothing else |
| Repositories.Database.MarkAsFailed | src/repositories/idempotency.repository.ts:25-37 | fails the record if it exists whatever its status, and touches nothing else |
| Repositories.Database.IncrementVersionIfMatch | src/repositories/wallet.repository.ts:72-88 | adds one to the version exactly when the wallet exists and its version is the expected one |
| Repositories.Database.CreateTransferEntries | src/repositories/ledger.repository.ts:19-54 | both rows, or a duplicate-key error and neither |
| Repositories.Database.CreateTransfer | src/repositories/transfer.repository.ts:7-10 | appends one row under the sequence's next id |
| RateLimit.AdmittedPerInterval | src/utils/index.ts:47-68 | any half-open interval of windowSec seconds admits at most 2 * max - 1 calls for a key, and none when max is below one |
| RateLimit.OneAtATime | src/services/auth.services.ts:81-86 | with max = 1 admitted calls are at least windowSec apart |
| RateLimit.RefusalsExtendNothing | src/utils/index.ts:47-53 | however many calls follow in a window, it ends when it was due to |
| RateLimit.BoundIsMet | src/utils/index.ts:47-68 | for every max and every window of at least two seconds some calls reach the bound |
| RateLimit.Limiter.Call | src/utils/index.ts:40-74 | one call counts once in its own key's window and in no other, and reaches the method exactly when the count is within max |
| RateLimit.Limiter.RetryAfter | src/utils/index.ts:61-67 | a refused caller is told the rest of the open window, always between 1 and windowSec seconds |
| ExpiringCounter.SpacedIsSparse | src/utils/index.ts:47-68 | if any n further entries take at least a window's length, no interval of that length holds more than n |
| Lockout.FailuresPerInterval | src/utils/lockout.lua:7-26 | from any moment without failures and under any lock, with no success and no admin lock or unlock, any half-open interval of windowSeconds holds at most 2 * threshold - 2 counted failures (one when the threshold is one), if the lock lasts at least as long as the window |
| Lockout.BoundHoldsIff | src/utils/lockout.lua:7-26 | all runs keep that bound if and only if lockSeconds >= windowSeconds |
| Lockout.ShortLocksBreakTheBound | src/utils/lockout.lua:16-19 | for every shorter lock a run exceeds the bound |
| Lockout.BoundIsMet | src/utils/lockout.lua:12-19 | the bound is reached for every threshold and window of at least two |
| Lockout.CountsStopAtThreshold | src/utils/lockout.lua:12-19 | a lock that outlasts the window never lets a window count past the threshold |
| Lockout.Guarded.RunScript | src/utils/lockout.lua:7-26 | the script, command by command, is the pure step the bounds are about |
| Lockout.Guarded.Leave | src/utils/lockout.ts:102-143 | ending by ending: a result that does not count forgets the failures, or throws if the DEL fails; an error that does not count changes nothing; every other ending adds one to the open window or opens one, sets the lock at the threshold and is refused then with the seconds the lock has, and under a lock is refused with those left |
| Lockout.Guarded.Call | src/utils/lockout.ts:84-144 | a call under a lock is refused with the seconds left and changes nothing; any other ends as its ending says |
| Lockout.Guarded.KeepsBound | src/utils/lockout.ts:84-144 | the object's own counted failures since it last forgot them keep the bound |
| Lockout.KeepTrying | src/utils/lockout.ts:84-144 | from no keys, as many failing calls as the threshold within one window set the lock; the last of them is refused, and so is every call until the lock ends, each with the seconds left |
| LockoutCalls.StartsPerLock | src/utils/lockout.ts:97-143 | with at most C calls past the look at the lock and all failing, at most threshold - 2 + C calls start the method between the opening of a fail window and the end of the lock it triggers |
| LockoutCalls.EveryLockGuards | src/utils/lockout.lua:16-19 | when locks outlast windows there is no other kind of lock |
| LockoutCalls.RefusedNeverReach | src/utils/lockout.ts:97-100 | a call that finds the lock on never reaches the method |
| LockoutCalls.BoundIsMet | src/utils/lockout.ts:97-143 | a run reaches the bound for every threshold of at least two and every overlap |
| Otp.UsesAreIssued | src/services/auth.services.ts:225-275 | calls one at a time: in any interval the password resets of an e-mail are at most the OTPs issued for them in it plus what can be carried into it, and likewise logins marked authorized; that is two, one when an OTP lives at most 31 seconds, none when it lives one second or the interval begins with the run |
| Otp.CallConserves | src/services/auth.services.ts:253-275 | no call creates more live OTPs and flags than it issues, and each use takes one away |
| Otp.TwoMoreThanIssued | src/services/auth.services.ts:225-250 | for every time to live from 32 seconds up a run uses two more than it issues in an interval |
| Otp.BoundIsMet | src/services/auth.services.ts:225-275 | for every time to live some run and interval use exactly as many more than issued as the bound allows |
| Otp.UsesPerMinute | src/services/auth.services.ts:81-103 | with the limiter of one OTP request a minute, at most one reset, and one authorized login, more in any minute than can be carried into it: three at most |
| Otp.IssuesAreAdmitted | src/services/auth.services.ts:81-103 | every issued OTP is a call the limiter let through |
| Otp.RefusedExactlyWhen | src/services/auth.services.ts:81-86 | after any calls in order, a request for an OTP is refused exactly when another for the same e-mail got past the limiter less than 60 seconds before |
| Otp.AuthServices.GetOtp | src/services/auth.services.ts:87-103 | refused exactly then; otherwise a fresh OTP replaces the stored one for a known user, and an unknown user gets none |
| Otp.AuthServices.ValidateOtp | src/services/auth.services.ts:253-275 | a live matching OTP becomes a flag and is gone; anything else changes nothing |
| Otp.AuthServices.ResetPassword | src/services/auth.services.ts:225-250 | a reset needs a live flag and an existing user, and only then uses the flag up |
| Otp.AuthServices.LoginUser | src/utils/authorization.ts:25-33 | a live flag marks the login authorized and is used up whatever becomes of the login |
| Otp.AuthServices.KeepsBounds | src/services/auth.services.ts:81-103 | the calls the object has served keep both bounds on uses |
| OtpCalls.UsesPerIssue | src/services/auth.services.ts:225-275 | with at most C calls under way at a time, each reading, acting and deleting in separate steps between those of others: an issued OTP sets the flag at most C times, a flag once set lets at most C calls through, so uses are at most C * C times the OTPs issued, and one each without overlap |
| OtpCalls.BoundsAreMet | src/services/auth.services.ts:225-275 | for every C a run in which one OTP sets the flag C times, and one in which one flag lets C calls through |
| Cache.OnlyGenuineResults | src/utils/cache-decorator.ts:25-58 | in every interleaving a returned value was produced by the original for the same cache key, a cached one was stored less than ttlSeconds before it was read and cost no run, and no call runs the original twice |
| Cache.OneOwnerPerLock | src/utils/cache-decorator.ts:33-49 | while every owner finishes before its lock runs out and nobody deletes the lock under it, no two calls hold one lock |
| Cache.OverstayingSharesTheLock | src/utils/cache-decorator.ts:33-49 | for every lock time, either of the two is enough to share it: a run whose owners take barely longer than the lock lasts, and one in which an owner has its lock evicted |
| Cache.OneOwnerIff | src/utils/cache-decorator.ts:33-49 | in all runs whose owners take less than d ms no lock is shared, if and only if d <= 1000 * lockTtlSeconds and locks are not evicted under their owners (or d = 0 and there are no owners) |
| Cache.CachedValuesAreFresh | src/utils/cache-decorator.ts:42-47 | when owners take less than d ms, for any d, a cached value is read at most 1000 * ttlSeconds + d - 2 ms after it was produced |
| Cache.AgeIsReached | src/utils/cache-decorator.ts:42-47 | a run reads a value of exactly that age, for every d and ttlSeconds of at least one |
| Cache.PollsFirst | src/utils/cache-decorator.ts:51-57 | a call that computes without the lock has waited five polls of 200 ms |
| CacheDecorator.Decorator.Call | src/utils/cache-decorator.ts:25-58 | the decorated method, with any steps of others in between, is a path of the machine; what it answers, by what is in the cache when it looks, who has the lock when it asks, and what fails: a live entry's product at no run and no sleep; with the lock the original's result unless it, the store or the release fails; without it the first of five looks that finds a value or fails, else the original's result after a second; a call during which nothing fails has an answer |
| CacheDecorator.Decorator.PollCache | src/utils/cache-decorator.ts:51-55 | five sleeps, each followed by a look; the first look that finds a value or fails decides |
| CacheDecorator.CallTwice | src/utils/cache-decorator.ts:25-58 | two calls of one key in a row, the second within the time to live, give the same product at one run in all |
| Analytics.BreakdownAgrees | src/services/analytics.services.ts:135-164 | the rows of one kind, converted and added up in any order, are one pass over the entries of that kind |
| Analytics.CountsAddUp | src/services/analytics.services.ts:27-37 | credit count plus debit count is the transaction count |
| Analytics.ShownIsBalance | src/repositories/ledger.repository.ts:85-115 | per currency, credits less debits are the summed balances of the user's wallets in it |
| Analytics.AnalyticsShowWorth | src/services/analytics.services.ts:30-37 | converted credits less converted debits are the user's balances converted and summed |
| Analytics.LargestOfMaximaIsLargestEntry | src/repositories/ledger.repository.ts:162-177 | converting each currency's maximum and taking the largest finds the largest converted entry, or zero |
| Analytics.ConvertAndAggregateRows | src/services/analytics.services.ts:135-154 | the two reductions over the converted rows are the aggregate of the rows |
| Analytics.GetLargestTransferAmount | src/services/analytics.services.ts:166-187 | whatever order the conversions complete in, the result is the larger of zero and the largest converted row |
| Analytics.ComputeAnalytics | src/services/analytics.services.ts:22-55 | the figures shown, from three queries over a ledger that may grow between them: totals, counts and net worth are those of the state the breakdown saw, the counts exceed the number of transactions by exactly the entries made since that was counted, the largest is that of the state the maxima saw; every entry of the user's wallets counts once, and nobody else's does |
| Analytics.OwnEntriesAlone | src/repositories/ledger.repository.ts:85-115 | a user's tallies are those of the entries of the user's own wallets, every one of them and no others |
| SystemSummary.TotalCountCountsTransfers | src/repositories/ledger.repository.ts:190-198 | in every reachable state the total count is the seed's debits plus the committed transfers |
| SystemSummary.SummaryCountsTransfers | src/services/analytics.services.ts:81-110 | the counts per currency add up to the seed's debits plus the transfers committed when they were read; the total count, read later, exceeds them by exactly the transfers committed in between |
| SystemSummary.DebitBreakdownAgrees | src/repositories/ledger.repository.ts:200-219 | the converted rows add up to the converted debits of the whole ledger |

## Left out

- TransferService.Service.Process: stated for a call with no other transaction open; with others open, the theorems about every run of the machine apply instead.
- TransferService.Service.ExecuteTransaction: the same.
- TransferService.Service.InTransaction: the same.
- TransferService.Service.Attempts: the same.
- TransferService.Service.Conclude: the same.
- TransferService.Service.Reconcile: the same; what a commit between its two lookups does is `Conditions.ForgetsIff`.
- TransferService.Service.ProcessIdempotencyRecord: the same, so it never waits for the row lock.
- TransferService.Service.CheckExistingTransactions: the same, so its two lookups see one database.
- TransferService.Service.GetWallets: the same, so its two reads do.
- TransferService.Service.UpdateWalletVersions: the same, so only a transfer to the same wallet misses.
- TransferService.Service.EnqueueTransfer: the same for the lookup and the insert of the record; the machine lets them interleave with everything.
- TransferService.Service.CreateLedgerEntries: requires an unused key, which holds in every transaction that gets there (`Guarantees.InsideTheLock`).
- Repositories.Database.CreateTransferEntries: does not read the two rows back, because the result is never used.
- Otp.UsesAreIssued: calls run one at a time and none stops between two Redis commands; overlapping calls are `OtpCalls`.
- OtpCalls.UsesPerIssue: no call stops between setting or using the flag and deleting the key it read; each of its two factors is met, their product is not claimed to be.
- Lockout.FailuresPerInterval: a success, an admin lock and an admin unlock reset the keys and are not part of the runs it counts.
- LockoutCalls.StartsPerLock: every call ends by counting a failure; successes and crashed calls are not part of these runs.
- Analytics.ComputeAnalytics: the exchange rates are fixed during the call and not negative.
- The balance pre-check when enqueueing (src/services/transfer.services.ts:51-54) compares strings and is treated as an arbitrary early rejection. The machine leaves open which jobs are queued, so it queues at least every job the code does.
- IEEE rounding and the decimal parsing of amounts: amounts and rates are exact.
- Isolation levels other than Read Committed, deadlocks (a deadlock is a failed statement) and liveness under contention.
- An e-mail error whose text contains "duplicate key value" (line 369): an e-mail failure is taken to be an ordinary error.
- Creation, deletion and reassignment of wallets and users.
- BullMQ's own scheduling: a queued job may run at any time and any number of times.
- Columns no decision depends on: metadata, timestamps, processedAt, failure reasons.
- A time to live of zero: Redis refuses `SET` with `EX 0`; here the key expires at once, so the lockout theorems count a lock time of zero among the short ones.
- Redis TTL rounding below a second, script loading, and the JSON encoding of cached values, which is taken to be lossless.
- Welcome e-mails and the verified mark of users (src/services/auth.services.ts:57-79), password and token checks, role guards, JWT versions.
- Express routes, controllers, schemas, pagination, status streaming, audit sanitising, logging and health checks: single-branch facts.
