/** Entities of the banking core: the rows of the `users` and
    `transactions` tables and the outcomes of the two writing endpoints.
    Money is held in integer minor units. */
module LedgerTypes {

  /** Opaque identifiers (UUID strings in the service). */
  type Id = string

  /** Public account numbers are nine-digit numbers. */
  const MinAccountNumber: int := 100000000
  const MaxAccountNumber: int := 999999999

  /** One row of the `users` table; its `id` is the key it is stored under. */
  datatype Account = Account(
    accountNumber: int,
    firstName: string,
    lastName: string,
    phoneNumber: string,
    email: string,
    balance: int)

  /** One row of the `transactions` table. */
  datatype Tx = Tx(id: Id, senderId: Id, receiverId: Id, amount: int)

  /** The failures a caller can observe, one per distinct HTTP answer. */
  datatype Error =
    | InvalidAmount      // 422: the request model refuses amount <= 0
    | SenderNotFound     // 404 "Sender not found"
    | InsufficientFunds  // 400 "Insufficient funds"
    | Duplicate          // 400 "User with this email or phone number already exists"
    | StorageFailure     // 500: a database error inside the transfer, rolled back

  datatype Result<T> = Ok(value: T) | Err(error: Error)

  /** What `create_user` hands back on success. */
  datatype NewUser = NewUser(userId: Id, accountNumber: int)

  /** The whole database: the `users` table keyed by id and the
      `transactions` table in insertion order. */
  datatype State = State(accounts: map<Id, Account>, log: seq<Tx>)

  /** A state transition: the database afterwards and the caller's answer. */
  datatype Step<T> = Step(state: State, result: Result<T>)
}
