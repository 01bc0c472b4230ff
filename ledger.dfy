/** The service's database as mutable state: the `users` table and the
    `transactions` table, changed in place by the two writing endpoints
    and read by the two listing endpoints. */
module Bank {
  import opened LedgerTypes
  import opened LedgerSteps

  class Ledger {
    /** The `users` table, keyed by the account's internal id. */
    var accounts: map<Id, Account>
    /** The `transactions` table in insertion order. */
    var log: seq<Tx>

    function Snapshot(): State
      reads this
    {
      State(accounts, log)
    }

    ghost predicate Valid()
      reads this
    {
      Consistent(Snapshot())
    }

    /** Opens a database that already holds `accounts` and `log`. */
    constructor Open(accounts0: map<Id, Account>, log0: seq<Tx>)
      ensures accounts == accounts0 && log == log0
      ensures Consistent(State(accounts0, log0)) ==> Valid()
    {
      accounts := accounts0;
      log := log0;
    }

    /** `POST /users`. `userId` and `accountNumber` are the values drawn by
        `uuid4` and `randint(100000000, 999999999)`. */
    method CreateUser(userId: Id, accountNumber: int, firstName: string, lastName: string,
                      phoneNumber: string, email: string) returns (r: Result<NewUser>)
      requires MinAccountNumber <= accountNumber <= MaxAccountNumber
      modifies this
      ensures Step(Snapshot(), r)
              == CreateUserStep(old(Snapshot()), userId, accountNumber, firstName, lastName, phoneNumber, email)
      ensures old(Valid()) ==> Valid()
    {
      if IdentityTaken(accounts, userId, accountNumber, phoneNumber, email) {
        // The INSERT raises an integrity error and nothing is committed.
        return Err(Duplicate);
      }
      accounts := accounts[userId := Account(accountNumber, firstName, lastName, phoneNumber, email, 0)];
      r := Ok(NewUser(userId, accountNumber));
      if old(Valid()) {
        CreateUserKeepsConsistent(old(Snapshot()), userId, accountNumber, firstName, lastName, phoneNumber, email);
      }
    }

    /** `POST /transfer`. `txId` is the value drawn by `uuid4` for the log
        entry. */
    method MakeTransfer(senderId: Id, receiverId: Id, amount: int, txId: Id) returns (r: Result<Id>)
      modifies this
      ensures Step(Snapshot(), r) == TransferStep(old(Snapshot()), senderId, receiverId, amount, txId)
      ensures old(Valid()) ==> Valid()
    {
      // The request model refuses the request before the handler runs.
      if amount <= 0 {
        return Err(InvalidAmount);
      }
      var before := Snapshot();
      if senderId !in accounts {
        r := Err(SenderNotFound);
      } else if accounts[senderId].balance < amount {
        r := Err(InsufficientFunds);
      } else {
        // Step A: debit the sender.
        var sender := accounts[senderId];
        accounts := accounts[senderId := sender.(balance := sender.balance - amount)];
        assert accounts == UpdateBalance(before.accounts, senderId, -amount);
        // Step B: credit the receiver; an unknown id matches no row.
        if receiverId in accounts {
          var receiver := accounts[receiverId];
          accounts := accounts[receiverId := receiver.(balance := receiver.balance + amount)];
        }
        assert accounts == UpdateBalance(UpdateBalance(before.accounts, senderId, -amount), receiverId, amount);
        // Step C: record the log entry, unless its id is already taken.
        if TxIdTaken(log, txId) {
          r := Err(StorageFailure);
        } else {
          log := log + [Tx(txId, senderId, receiverId, amount)];
          r := Ok(txId);
        }
      }
      if r.Err? {
        // Rollback: every change since `before` is undone.
        accounts, log := before.accounts, before.log;
      }
      if old(Valid()) {
        TransferKeepsConsistent(before, senderId, receiverId, amount, txId);
      }
    }

    /** `GET /users`: the whole table, unchanged. */
    method GetUsers() returns (users: map<Id, Account>)
      ensures users == accounts
    {
      users := accounts;
    }

    /** `GET /transactions`: the whole log, newest entry first. */
    method GetTransactions() returns (txs: seq<Tx>)
      ensures |txs| == |log|
      ensures forall i :: 0 <= i < |log| ==> txs[i] == log[|log| - 1 - i]
    {
      txs := NewestFirst(log);
    }
  }
}
