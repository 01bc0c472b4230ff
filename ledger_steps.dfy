/** The two writing endpoints of the banking core as pure transitions of
    the database, the read endpoint for the transaction history, and the
    properties they are meant to have. */
module LedgerSteps {
  import opened LedgerTypes
  import opened LedgerTotals

  /** Well-formedness of the database: balances never negative, account
      numbers nine digits long, no two accounts sharing an account number,
      a phone number or an email, every logged amount positive and every
      log id used once. */
  ghost predicate Consistent(s: State) {
    && (forall id :: id in s.accounts ==>
          s.accounts[id].balance >= 0
          && MinAccountNumber <= s.accounts[id].accountNumber <= MaxAccountNumber)
    && (forall a, b :: a in s.accounts && b in s.accounts && a != b ==>
          && s.accounts[a].accountNumber != s.accounts[b].accountNumber
          && s.accounts[a].phoneNumber != s.accounts[b].phoneNumber
          && s.accounts[a].email != s.accounts[b].email)
    && (forall i :: 0 <= i < |s.log| ==> s.log[i].amount > 0)
    && (forall i, j :: 0 <= i < j < |s.log| ==> s.log[i].id != s.log[j].id)
  }

  // ---------------------------------------------------------------- users

  /** The insert of a new user violates a uniqueness constraint: its id,
      account number, phone number or email is already in the table. */
  predicate IdentityTaken(m: map<Id, Account>, userId: Id, accountNumber: int,
                          phoneNumber: string, email: string)
  {
    || userId in m
    || exists k :: k in m && (|| m[k].accountNumber == accountNumber
                              || m[k].phoneNumber == phoneNumber
                              || m[k].email == email)
  }

  /** `create_user`: insert an account with balance zero, or refuse the
      insert and leave the table as it was. `userId` and `accountNumber`
      are the values the service draws at random. */
  function CreateUserStep(s: State, userId: Id, accountNumber: int,
                          firstName: string, lastName: string,
                          phoneNumber: string, email: string): Step<NewUser>
    requires MinAccountNumber <= accountNumber <= MaxAccountNumber
  {
    if IdentityTaken(s.accounts, userId, accountNumber, phoneNumber, email) then
      Step(s, Err(Duplicate))
    else
      var created := Account(accountNumber, firstName, lastName, phoneNumber, email, 0);
      Step(State(s.accounts[userId := created], s.log), Ok(NewUser(userId, accountNumber)))
  }

  /** Creating a user succeeds exactly when no uniqueness constraint is
      violated; on success exactly one account is added, holding the
      request's names, phone number and email, the returned nine-digit
      account number and balance zero, and on failure nothing changes. */
  lemma CreateUserOutcome(s: State, userId: Id, accountNumber: int,
                          firstName: string, lastName: string,
                          phoneNumber: string, email: string)
    requires MinAccountNumber <= accountNumber <= MaxAccountNumber
    ensures var r := CreateUserStep(s, userId, accountNumber, firstName, lastName, phoneNumber, email);
      && (r.result.Ok? <==> !IdentityTaken(s.accounts, userId, accountNumber, phoneNumber, email))
      && (r.result.Err? ==> r.result.error == Duplicate && r.state == s)
      && (r.result.Ok? ==>
            && r.result.value == NewUser(userId, accountNumber)
            && r.state.log == s.log
            && r.state.accounts.Keys == s.accounts.Keys + {userId}
            && userId !in s.accounts
            && r.state.accounts[userId]
               == Account(accountNumber, firstName, lastName, phoneNumber, email, 0)
            && MinAccountNumber <= r.state.accounts[userId].accountNumber <= MaxAccountNumber
            && (forall k :: k in s.accounts ==> r.state.accounts[k] == s.accounts[k]))
  {
  }

  /** A duplicate email or phone number is always refused. */
  lemma CreateUserRejectsDuplicate(s: State, userId: Id, accountNumber: int,
                                   firstName: string, lastName: string,
                                   phoneNumber: string, email: string, other: Id)
    requires MinAccountNumber <= accountNumber <= MaxAccountNumber
    requires other in s.accounts
    requires s.accounts[other].email == email || s.accounts[other].phoneNumber == phoneNumber
    ensures CreateUserStep(s, userId, accountNumber, firstName, lastName, phoneNumber, email)
            == Step(s, Err(Duplicate))
  {
  }

  /** Opening an account creates no money. */
  lemma CreateUserKeepsTotal(s: State, userId: Id, accountNumber: int,
                             firstName: string, lastName: string,
                             phoneNumber: string, email: string)
    requires MinAccountNumber <= accountNumber <= MaxAccountNumber
    ensures Total(CreateUserStep(s, userId, accountNumber, firstName, lastName, phoneNumber, email)
                    .state.accounts) == Total(s.accounts)
  {
    var r := CreateUserStep(s, userId, accountNumber, firstName, lastName, phoneNumber, email);
    if r.result.Ok? {
      TotalInsert(s.accounts, userId, r.state.accounts[userId]);
    }
  }

  /** Creating a user keeps the database well-formed. */
  lemma CreateUserKeepsConsistent(s: State, userId: Id, accountNumber: int,
                                  firstName: string, lastName: string,
                                  phoneNumber: string, email: string)
    requires MinAccountNumber <= accountNumber <= MaxAccountNumber
    requires Consistent(s)
    ensures Consistent(CreateUserStep(s, userId, accountNumber, firstName, lastName, phoneNumber, email).state)
  {
  }

  // ------------------------------------------------------------ transfers

  /** `UPDATE users SET balance = balance + delta WHERE id = ?`: changes the
      matching row, or nothing when no row has that id. */
  function UpdateBalance(m: map<Id, Account>, id: Id, delta: int): map<Id, Account> {
    if id in m then m[id := m[id].(balance := m[id].balance + delta)] else m
  }

  /** The INSERT into `transactions` would clash with an existing row's id. */
  predicate TxIdTaken(log: seq<Tx>, txId: Id) {
    exists i :: 0 <= i < |log| && log[i].id == txId
  }

  /** `make_transfer`: reject a non-positive amount, an unknown sender or a
      balance below the amount; otherwise debit the sender, credit the
      receiver (a no-op for an unknown receiver) and append the log entry,
      all of it undone when the insert fails. */
  function TransferStep(s: State, senderId: Id, receiverId: Id, amount: int, txId: Id): Step<Id> {
    if amount <= 0 then Step(s, Err(InvalidAmount))
    else if senderId !in s.accounts then Step(s, Err(SenderNotFound))
    else if s.accounts[senderId].balance < amount then Step(s, Err(InsufficientFunds))
    else if TxIdTaken(s.log, txId) then Step(s, Err(StorageFailure))
    else
      var debited := UpdateBalance(s.accounts, senderId, -amount);
      var credited := UpdateBalance(debited, receiverId, amount);
      Step(State(credited, s.log + [Tx(txId, senderId, receiverId, amount)]), Ok(txId))
  }

  /** What one log entry means for one account's balance. */
  function NetEffect(t: Tx, id: Id): int {
    (if t.receiverId == id then t.amount else 0) - (if t.senderId == id then t.amount else 0)
  }

  /** A transfer with a zero or negative amount is refused and changes nothing. */
  lemma TransferRejectsNonPositive(s: State, senderId: Id, receiverId: Id, amount: int, txId: Id)
    requires amount <= 0
    ensures TransferStep(s, senderId, receiverId, amount, txId) == Step(s, Err(InvalidAmount))
  {
  }

  /** A transfer from an unknown sender is refused and changes nothing. */
  lemma TransferRejectsUnknownSender(s: State, senderId: Id, receiverId: Id, amount: int, txId: Id)
    requires amount > 0 && senderId !in s.accounts
    ensures TransferStep(s, senderId, receiverId, amount, txId) == Step(s, Err(SenderNotFound))
  {
  }

  /** A transfer larger than the sender's balance is refused, leaving every
      balance and the log as they were. */
  lemma TransferRejectsInsufficientFunds(s: State, senderId: Id, receiverId: Id, amount: int, txId: Id)
    requires amount > 0 && senderId in s.accounts && s.accounts[senderId].balance < amount
    ensures TransferStep(s, senderId, receiverId, amount, txId) == Step(s, Err(InsufficientFunds))
  {
  }

  /** A failing insert of the log entry rolls back the debit and the credit. */
  lemma TransferRollsBackOnStorageFailure(s: State, senderId: Id, receiverId: Id, amount: int, txId: Id, i: nat)
    requires amount > 0 && senderId in s.accounts && s.accounts[senderId].balance >= amount
    requires i < |s.log| && s.log[i].id == txId
    ensures TransferStep(s, senderId, receiverId, amount, txId) == Step(s, Err(StorageFailure))
  {
  }

  /** A transfer either fails and leaves the database untouched, or
      succeeds exactly when all checks pass; the receiver is never checked. */
  lemma TransferSucceedsIff(s: State, senderId: Id, receiverId: Id, amount: int, txId: Id)
    ensures var r := TransferStep(s, senderId, receiverId, amount, txId);
      && (r.result.Err? ==> r.state == s)
      && (r.result.Ok? <==>
            && amount > 0
            && senderId in s.accounts
            && s.accounts[senderId].balance >= amount
            && !TxIdTaken(s.log, txId))
  {
  }

  /** A successful transfer appends exactly one entry, whose id is the one
      returned, and moves every existing account's balance by exactly that
      entry's net effect: the sender loses the amount, the receiver gains
      it, a self-transfer nets to zero and every other account keeps its
      balance. No account is added or removed and only balances change. */
  lemma TransferFollowsLogEntry(s: State, senderId: Id, receiverId: Id, amount: int, txId: Id)
    ensures var r := TransferStep(s, senderId, receiverId, amount, txId);
      r.result.Ok? ==>
        && r.result.value == txId
        && r.state.log == s.log + [Tx(txId, senderId, receiverId, amount)]
        && r.state.accounts.Keys == s.accounts.Keys
        && (forall id :: id in s.accounts ==>
              && r.state.accounts[id].balance == s.accounts[id].balance + NetEffect(r.state.log[|s.log|], id)
              && r.state.accounts[id] == s.accounts[id].(balance := r.state.accounts[id].balance))
  {
  }

  /** The sender never ends below zero: the debit is at most its balance. */
  lemma TransferKeepsSenderNonNegative(s: State, senderId: Id, receiverId: Id, amount: int, txId: Id)
    requires senderId in s.accounts && s.accounts[senderId].balance >= 0
    ensures var r := TransferStep(s, senderId, receiverId, amount, txId);
      r.result.Ok? ==> r.state.accounts[senderId].balance >= 0
  {
  }

  /** Between two distinct existing accounts the amount moves from one to
      the other and their combined balance is conserved. */
  lemma TransferConservesPair(s: State, senderId: Id, receiverId: Id, amount: int, txId: Id)
    requires senderId in s.accounts && receiverId in s.accounts && senderId != receiverId
    ensures var r := TransferStep(s, senderId, receiverId, amount, txId);
      r.result.Ok? ==>
        && r.state.accounts[senderId].balance == s.accounts[senderId].balance - amount
        && r.state.accounts[receiverId].balance == s.accounts[receiverId].balance + amount
        && r.state.accounts[senderId].balance + r.state.accounts[receiverId].balance
           == s.accounts[senderId].balance + s.accounts[receiverId].balance
  {
  }

  /** A successful transfer to an existing receiver conserves the money in
      the whole table; one to an unknown receiver destroys exactly the
      amount, because the sender is debited and nobody is credited. */
  lemma TransferConservesTotal(s: State, senderId: Id, receiverId: Id, amount: int, txId: Id)
    ensures var r := TransferStep(s, senderId, receiverId, amount, txId);
      && (r.result.Ok? && receiverId in s.accounts ==> Total(r.state.accounts) == Total(s.accounts))
      && (r.result.Ok? && receiverId !in s.accounts ==> Total(r.state.accounts) == Total(s.accounts) - amount)
      && (r.result.Err? ==> Total(r.state.accounts) == Total(s.accounts))
  {
    var r := TransferStep(s, senderId, receiverId, amount, txId);
    if r.result.Ok? {
      var sender := s.accounts[senderId];
      var debited := UpdateBalance(s.accounts, senderId, -amount);
      TotalUpdate(s.accounts, senderId, sender.(balance := sender.balance - amount));
      if receiverId in debited {
        var receiver := debited[receiverId];
        TotalUpdate(debited, receiverId, receiver.(balance := receiver.balance + amount));
      }
    }
  }

  /** A transfer keeps the database well-formed, whatever its outcome. */
  lemma TransferKeepsConsistent(s: State, senderId: Id, receiverId: Id, amount: int, txId: Id)
    requires Consistent(s)
    ensures Consistent(TransferStep(s, senderId, receiverId, amount, txId).state)
  {
    var r := TransferStep(s, senderId, receiverId, amount, txId);
    if r.result.Ok? {
      TransferFollowsLogEntry(s, senderId, receiverId, amount, txId);
      var m := r.state.accounts;
      forall id | id in m ensures m[id].balance >= 0 {
        assert m[id].balance == s.accounts[id].balance + NetEffect(r.state.log[|s.log|], id);
      }
      forall i, j | 0 <= i < j < |r.state.log| ensures r.state.log[i].id != r.state.log[j].id {
        if j == |s.log| {
          assert r.state.log[i] == s.log[i];
        }
      }
    }
  }

  // -------------------------------------------------------------- listing

  /** `get_transactions`: the log, newest entry first. */
  function NewestFirst(log: seq<Tx>): (r: seq<Tx>)
    ensures |r| == |log|
    ensures forall i :: 0 <= i < |log| ==> r[i] == log[|log| - 1 - i]
  {
    if log == [] then [] else [log[|log| - 1]] + NewestFirst(log[..|log| - 1])
  }

  /** Listing newest first loses and invents nothing: reversing it gives
      back the log in insertion order. */
  lemma NewestFirstTwice(log: seq<Tx>)
    ensures NewestFirst(NewestFirst(log)) == log
  {
  }

  /** After a successful transfer, the history starts with the new entry,
      followed by the history as it was. */
  lemma TransferListedFirst(s: State, senderId: Id, receiverId: Id, amount: int, txId: Id)
    ensures var r := TransferStep(s, senderId, receiverId, amount, txId);
      r.result.Ok? ==>
        NewestFirst(r.state.log) == [Tx(txId, senderId, receiverId, amount)] + NewestFirst(s.log)
  {
  }
}
