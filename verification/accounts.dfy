/**
 * The account model: one class for both variants, tagged by `kind`. Deposits
 * behave alike; withdrawals and transfers are checked by the policy of the
 * variant (`Permits`), which gets the history it needs (the account's last
 * transaction of the same kind) from its caller.
 */
module Accounts {
  import opened Wrappers
  import opened Entities

  /** `CheckingAccount._LIMIT`: a checking balance may go down to -200 units. */
  const CheckingLimit: int := -200 * CentsPerUnit

  /** The savings throttle window, 30 days, in microseconds. */
  const ThrottleWindow: int := 30 * 24 * 60 * 60 * 1_000_000

  /** The lowest balance a withdrawal or transfer may leave behind. */
  function Floor(kind: Kind): int
  {
    match kind
    case Checking => CheckingLimit
    case Savings => 0
  }

  /**
   * The savings throttle: a previous transaction of the same kind was given
   * and happened at or after `now - ThrottleWindow`.
   */
  predicate Throttled(last: Option<Transaction>, now: int)
  {
    last.Some? && last.value.time >= now - ThrottleWindow
  }

  /**
   * Whether a withdrawal or transfer of `amount` from an account of `kind`
   * holding `balance` goes ahead. Checking only compares against its limit;
   * savings first refuses when throttled, then refuses a negative result.
   */
  predicate Permits(kind: Kind, balance: int, amount: int, last: Option<Transaction>, now: int)
    ensures Permits(kind, balance, amount, last, now) ==> balance - amount >= Floor(kind)
    ensures kind == Savings && Throttled(last, now) ==> !Permits(kind, balance, amount, last, now)
  {
    match kind
    case Checking => !(balance - amount < CheckingLimit)
    case Savings =>
      if Throttled(last, now) then false
      else !(balance - amount < 0)
  }

  /** Both policies in one rule: never throttled for checking, and never below the variant's floor. */
  lemma PermitsByFloor(kind: Kind, balance: int, amount: int, last: Option<Transaction>, now: int)
    ensures Permits(kind, balance, amount, last, now) <==>
      !(kind == Savings && Throttled(last, now)) && balance - amount >= Floor(kind)
  {
  }

  /** A checking account ignores history and succeeds exactly when the limit of -200 holds. */
  lemma CheckingRule(balance: int, amount: int, last: Option<Transaction>, now: int)
    ensures Permits(Checking, balance, amount, last, now) <==> balance - amount >= -200 * CentsPerUnit
  {
  }

  /** A throttled savings operation is refused whatever the amount and balance. */
  lemma SavingsThrottleFirst(balance: int, amount: int, last: Transaction, now: int)
    requires last.time >= now - ThrottleWindow
    ensures !Permits(Savings, balance, amount, Some(last), now)
  {
  }

  /** Without a recent same-kind transaction, savings succeeds exactly when the balance stays non-negative. */
  lemma SavingsBalanceRule(balance: int, amount: int, last: Option<Transaction>, now: int)
    requires last.None? || last.value.time < now - ThrottleWindow
    ensures Permits(Savings, balance, amount, last, now) <==> balance - amount >= 0
  {
  }

  class Account {
    const firstName: string
    const lastName: string
    const age: int
    const accountId: int
    const customerId: int
    const kind: Kind
    var balance: int

    /** An account built from its record (at start-up, or when one is opened). */
    constructor (r: AccountRecord)
      ensures Record() == r
    {
      firstName, lastName, age := r.firstName, r.lastName, r.age;
      accountId, customerId, kind := r.accountId, r.customerId, r.kind;
      balance := r.balance;
    }

    /** The account's current fields as a value. */
    function Record(): AccountRecord
      reads this
    {
      AccountRecord(firstName, lastName, age, accountId, customerId, kind, balance)
    }

    /** Balance within the variant's floor. */
    predicate WithinFloor()
      reads this
    {
      balance >= Floor(kind)
    }

    /** Adds `amount` (not validated, so it may be negative); always succeeds. */
    method Deposit(amount: int) returns (ok: bool)
      modifies this
      ensures ok
      ensures balance == old(balance) + amount
    {
      balance := balance + amount;
      ok := true;
    }

    /**
     * Takes `amount` out if the variant's policy permits it; `last` is the
     * account's previous withdrawal, which only a savings account consults.
     */
    method Withdraw(amount: int, last: Option<Transaction>, now: int) returns (ok: bool)
      modifies this
      ensures ok == Permits(kind, old(balance), amount, last, now)
      ensures balance == if ok then old(balance) - amount else old(balance)
      ensures ok ==> WithinFloor()
    {
      if kind == Savings && Throttled(last, now) {
        return false;
      }
      if balance - amount < Floor(kind) {
        return false;
      }
      balance := balance - amount;
      ok := true;
    }

    /**
     * Moves `amount` to `receiver` if the variant's policy permits it; `last`
     * is the account's previous transfer, which only a savings account
     * consults. Both balances change together or neither does; a transfer to
     * the account itself leaves its balance as it was.
     */
    method Transfer(amount: int, receiver: Account, last: Option<Transaction>, now: int) returns (ok: bool)
      modifies this, receiver
      ensures ok == Permits(kind, old(balance), amount, last, now)
      ensures receiver != this ==>
        && balance == (if ok then old(balance) - amount else old(balance))
        && receiver.balance == (if ok then old(receiver.balance) + amount else old(receiver.balance))
      ensures receiver == this ==> balance == old(balance)
      ensures balance + receiver.balance == old(balance) + old(receiver.balance)
      ensures ok && receiver != this ==> WithinFloor()
      ensures amount >= 0 && old(receiver.WithinFloor()) ==> receiver.WithinFloor()
    {
      if kind == Savings && Throttled(last, now) {
        return false;
      }
      if balance - amount < Floor(kind) {
        return false;
      }
      balance := balance - amount;
      receiver.balance := receiver.balance + amount;
      ok := true;
    }
  }
}
