/**
 * The ledger's records as values. Money is counted in cents (the source keeps
 * floating-point currency units; only `+`, `-` and `<` are applied to it) and
 * time in microseconds, the resolution of the source's timestamps.
 */
module Entities {

  /** Cents in one currency unit. */
  const CentsPerUnit: int := 100

  /** The two account variants (`CheckingAccount`, `SavingAccount`). */
  datatype Kind = Checking | Savings

  /** The three transaction kinds written to the log. */
  datatype TxKind = Deposit | Withdraw | Transfer

  /** A registered customer; never changed after registration. */
  datatype Customer = Customer(firstName: string, lastName: string, age: int, id: int)

  /**
   * One line of the transaction log. `receiverId` is 0 unless the kind is
   * `Transfer`; `amount` is in cents and `time` in microseconds.
   */
  datatype Transaction = Transaction(
    id: int,
    accountId: int,
    kind: TxKind,
    customerId: int,
    receiverId: int,
    amount: int,
    time: int)

  /** The fields of an account as they are written to the accounts file. */
  datatype AccountRecord = AccountRecord(
    firstName: string,
    lastName: string,
    age: int,
    accountId: int,
    customerId: int,
    kind: Kind,
    balance: int)

  /** The `account_type` text of each variant. */
  function KindName(k: Kind): string
  {
    match k
    case Checking => "Checking"
    case Savings => "Savings"
  }

  /** The `type` text of each transaction kind. */
  function TxKindName(k: TxKind): string
  {
    match k
    case Deposit => "Deposit"
    case Withdraw => "Withdraw"
    case Transfer => "Transfer"
  }
}
