# Banking core ledger, modelled in Dafny

This project models the ledger at the heart of the `banking_core_mvp`
service (`src/main.py`). The service keeps a `users` table of accounts
and a `transactions` table that only grows. Two endpoints write:

- `create_user` inserts an account with balance zero under a fresh UUID
  and a random nine-digit account number. It refuses an identity that is
  already taken.
- `make_transfer` checks that the sender exists and can cover the amount.
  It then debits the sender, credits the receiver and appends a log
  entry. It commits all of it, or rolls all of it back on any error.

Two endpoints read: `get_users` returns the table as it is, and
`get_transactions` returns the log newest first.

Files:

- `ledger_types.dfy` (module `LedgerTypes`): accounts, log entries,
  error kinds and the `State` of the database (a map from account id to
  account, plus the log as a sequence).
- `ledger_totals.dfy` (module `LedgerTotals`): `Total`, the sum of all
  balances, with the lemmas for updating and inserting one account.
- `ledger_steps.dfy` (module `LedgerSteps`): each endpoint as a pure
  transition `CreateUserStep` / `TransferStep`, the well-formedness
  predicate `Consistent`, and the lemmas stating the endpoints' properties.
- `ledger.dfy` (module `Bank`): class `Ledger`, whose fields `accounts`
  and `log` are changed in place by `CreateUser` and `MakeTransfer`.
  `MakeTransfer` performs the debit, the credit and the insert one after
  the other, and restores the saved snapshot when a step fails. Each
  method is proved to produce exactly the state and answer of its pure
  transition, and to keep `Valid()`.

Amounts and balances are integers in minor units. Error kinds:
`InvalidAmount` (the request model's `amount > 0`, HTTP 422),
`SenderNotFound` (404), `InsufficientFunds` (400), `Duplicate` (400 on an
integrity error in `create_user`) and `StorageFailure` (500 on a database
error inside the transfer).

Behaviour kept exactly as the code has it:

- The receiver is never checked. The credit `UPDATE` matches no row for an
  unknown receiver id. The sender is still debited and the log entry is
  still written, so that money leaves the table (`TransferConservesTotal`).
- A transfer to oneself is accepted. The debit and the credit cancel out
  and a log entry is still written (`TransferFollowsLogEntry`, with
  `NetEffect` zero).
- The checks run in the code's order: amount, then the sender's
  existence, then its funds. There is no self-transfer error and no
  receiver-not-found error.

Random and external values are parameters. `userId` and `txId` stand for
the `uuid4()` values and `accountNumber` stands for the
`randint(100000000, 999999999)` value. `accountNumber` is required to lie
in that range, because that is what `randint` returns. The database schema
file is not part of this model. The constraints assumed for it are these.
In `users`, `id` is the primary key and `account_number`, `phone_number`
and `email` are unique. In `transactions`, `id` is the primary key. A
clash on any of them is the integrity error that `create_user` reports as
`Duplicate`. For a transfer, a clash of the new log id is the database
error that makes `make_transfer` roll back (`StorageFailure`).

## Model

| member | source | states |
|---|---|---|
| `Bank.Ledger.CreateUser` | src/main.py:51-86 | the new table and the answer are exactly those of `CreateUserStep`, and a well-formed database stays well-formed |
| `Bank.Ledger.MakeTransfer` | src/main.py:90-150 | debit, credit, insert and rollback performed in place give exactly the state and answer of `TransferStep`, and a well-formed database stays well-formed |
| `Bank.Ledger.GetUsers` | src/main.py:41-49 | returns the account table as it is and changes nothing |
| `Bank.Ledger.GetTransactions` | src/main.py:151-164 | returns every log entry, the newest first: position `i` holds the entry appended `i`-th from last |
| `LedgerSteps.CreateUserOutcome` | src/main.py:64-79 | creation succeeds iff no id, account number, phone or email clashes; on success exactly one account is added, holding the request's names, phone and email, the returned account number (in [100000000, 999999999]) and balance 0, and no other account or log entry changes; on failure the error is `Duplicate` and nothing changes |
| `LedgerSteps.CreateUserRejectsDuplicate` | src/main.py:76-79 | a user whose email or phone number is already in use is refused with `Duplicate` and the state is unchanged |
| `LedgerSteps.CreateUserKeepsTotal` | src/main.py:67-73 | opening an account with balance 0 leaves the sum of all balances unchanged |
| `LedgerSteps.CreateUserKeepsConsistent` | src/main.py:64-79 | creation keeps balances non-negative, account numbers in range and unique, and phones and emails unique |
| `LedgerSteps.TransferRejectsNonPositive` | src/main.py:23 | an amount of zero or less is refused with `InvalidAmount` and no account or log entry changes |
| `LedgerSteps.TransferRejectsUnknownSender` | src/main.py:101-105 | an unknown sender id is refused with `SenderNotFound` and the state is unchanged |
| `LedgerSteps.TransferRejectsInsufficientFunds` | src/main.py:107-108 | a sender balance below the amount is refused with `InsufficientFunds`; balances and log are unchanged |
| `LedgerSteps.TransferRollsBackOnStorageFailure` | src/main.py:126-147 | when inserting the log entry fails, the debit and credit already made are rolled back: the state is unchanged and the error is `StorageFailure` |
| `LedgerSteps.TransferSucceedsIff` | src/main.py:99-147 | any failure leaves the whole database as it was; success happens iff the amount is positive, the sender exists and covers it and the log id is free, and the receiver plays no part |
| `LedgerSteps.TransferFollowsLogEntry` | src/main.py:113-130 | on success the returned id is the new entry's id and the log grows by exactly that entry; no account appears or disappears, only balances change, and each account moves by the entry's net effect on it (sender minus amount, receiver plus amount, zero for a self-transfer and for everyone else) |
| `LedgerSteps.TransferKeepsSenderNonNegative` | src/main.py:107-117 | a sender starting at or above zero stays at or above zero after a successful transfer |
| `LedgerSteps.TransferConservesPair` | src/main.py:113-123 | between two distinct existing accounts the sender loses exactly the amount, the receiver gains exactly the amount, and their combined balance is preserved |
| `LedgerSteps.TransferConservesTotal` | src/main.py:113-123 | a successful transfer to an existing receiver preserves the sum of all balances; one to an unknown receiver lowers it by exactly the amount; a failed one preserves it |
| `LedgerSteps.TransferKeepsConsistent` | src/main.py:99-147 | every transfer outcome keeps balances non-negative, identities unique, logged amounts positive and log ids unique |
| `LedgerSteps.NewestFirst` | src/main.py:159-161 | the listing has the log's length and holds the entries in reverse order of insertion |
| `LedgerSteps.NewestFirstTwice` | src/main.py:159-161 | reversing the newest-first listing gives back the log in insertion order, so the listing loses and invents no entry |
| `LedgerSteps.TransferListedFirst` | src/main.py:126-130 | after a successful transfer the history starts with the new entry, followed by the previous history |

## Left out

- HTTP routing, status codes and request parsing. Only the error kinds
  they carry are kept, one per distinct status.
- SQLite connection handling and SQL text. The tables are a map and a
  sequence, and commit and rollback are assignments of the whole state.
  `Bank.Ledger.Open` stands for connecting to a database that already
  holds data.
- `uuid4()` and `randint`. Their values are parameters.
- Database errors in `make_transfer` other than a clash of the new log
  id, such as a full disk or a lost file. Each of them would take the
  same rollback path as `StorageFailure`.
- Database errors in `create_user` other than an integrity error. The
  handler catches only integrity errors, so any other error escapes
  without a rollback or closing the connection, and the framework answers
  500. The model has no such outcome for `CreateUser`.
- The `role` and `created_at` columns of `users`. They are filled by
  database defaults and returned by `get_users`, but no modelled code
  reads or writes them, so `Account` leaves them out.
- Floating-point balances and amounts. Integers in minor units are used
  instead, so rounding is not modelled.
- `created_at` timestamps. `get_transactions` orders by a timestamp the
  database fills in, and entries written in the same second may come back
  in either order. The model lists the log as the exact reverse of
  insertion order.
- Concurrency. The service takes no locks, and its unlocked balance check
  runs before the updates. The model treats each request as one atomic,
  sequential step.
- `get_users` returns the rows in table order. The model returns the map,
  so it has no row order.
- Seeding of fake data and the dashboard (`src/generated_data.py`,
  `src/dashboard.py`). These are I/O and presentation code, not ledger
  logic.
