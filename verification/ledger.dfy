/**
 * The ledger store: the customers, accounts and transactions lists the shell
 * keeps for the whole session, the scans it runs over them, and the rules it
 * applies when it opens an account, records an operation or deletes accounts.
 * The session's current customer, the chosen amount, the receiver id and the
 * clock reading are parameters.
 */
module Ledger {
  import opened Wrappers
  import opened Lists
  import opened Entities
  import opened Accounts

  // ---------------------------------------------------------------- scans

  /** The condition of the scans that look for a customer's accounts. */
  function OwnedBy(customerId: int): Account -> bool
  {
    (a: Account) => a.customerId == customerId
  }

  /** The condition of the delete filter: owned by someone else. */
  function NotOwnedBy(customerId: int): Account -> bool
  {
    (a: Account) => a.customerId != customerId
  }

  /** A customer's accounts, in list order. */
  function AccountsOf(accounts: seq<Account>, customerId: int): (r: seq<Account>)
    ensures forall a :: a in r ==> a in accounts && a.customerId == customerId
    ensures forall a :: a in accounts && a.customerId == customerId ==> a in r
  {
    Filter(accounts, OwnedBy(customerId))
  }

  /**
   * The account the shell operates on for a customer: the last one of theirs
   * in list order, or none when they have no account.
   */
  function CurrentAccount(accounts: seq<Account>, customerId: int): (r: Option<Account>)
    ensures r.None? <==> forall i :: 0 <= i < |accounts| ==> accounts[i].customerId != customerId
    ensures r.Some? ==> exists i ::
      && 0 <= i < |accounts| && accounts[i] == r.value && r.value.customerId == customerId
      && forall j :: i < j < |accounts| ==> accounts[j].customerId != customerId
  {
    LastOfFilter(accounts, OwnedBy(customerId));
    LastOf(Filter(accounts, OwnedBy(customerId)))
  }

  /** The receiver of a transfer: the first account in list order with the given id. */
  function FindAccount(accounts: seq<Account>, accountId: int): (r: Option<Account>)
    ensures r.None? <==> forall i :: 0 <= i < |accounts| ==> accounts[i].accountId != accountId
    ensures r.Some? ==> exists i ::
      && 0 <= i < |accounts| && accounts[i] == r.value && r.value.accountId == accountId
      && forall j :: 0 <= j < i ==> accounts[j].accountId != accountId
  {
    var p := (a: Account) => a.accountId == accountId;
    FirstOfFilter(accounts, p);
    FirstOf(Filter(accounts, p))
  }

  /**
   * An account's last transaction of one kind, in list order (not by
   * timestamp), or none when it has none.
   */
  function LastTransaction(transactions: seq<Transaction>, accountId: int, kind: TxKind): (r: Option<Transaction>)
    ensures r.None? <==> forall i :: 0 <= i < |transactions| ==>
      !(transactions[i].accountId == accountId && transactions[i].kind == kind)
    ensures r.Some? ==> exists i ::
      && 0 <= i < |transactions| && transactions[i] == r.value
      && r.value.accountId == accountId && r.value.kind == kind
      && forall j :: i < j < |transactions| ==>
           !(transactions[j].accountId == accountId && transactions[j].kind == kind)
  {
    var p := (t: Transaction) => t.accountId == accountId && t.kind == kind;
    LastOfFilter(transactions, p);
    LastOf(Filter(transactions, p))
  }

  /**
   * The history the shell hands to an account's withdraw or transfer: for a
   * savings account its last transaction of that kind, for a checking account
   * nothing.
   */
  function History(transactions: seq<Transaction>, a: Account, kind: TxKind): (r: Option<Transaction>)
    ensures a.kind == Checking ==> r.None?
    ensures a.kind == Savings ==> r == LastTransaction(transactions, a.accountId, kind)
    ensures r.Some? ==> r.value in transactions && r.value.accountId == a.accountId && r.value.kind == kind
    ensures a.kind == Savings && r.None? ==> forall i :: 0 <= i < |transactions| ==>
      !(transactions[i].accountId == a.accountId && transactions[i].kind == kind)
  {
    if a.kind == Savings then LastTransaction(transactions, a.accountId, kind) else None
  }

  /** The accounts left after deleting a customer's accounts: all of theirs go, the rest stay in order. */
  function WithoutCustomer(accounts: seq<Account>, customerId: int): (r: seq<Account>)
    ensures forall a :: a in r ==> a in accounts && a.customerId != customerId
    ensures forall a :: a in accounts && a.customerId != customerId ==> a in r
    ensures |r| == |accounts| - |AccountsOf(accounts, customerId)|
  {
    FilterPartition(accounts, OwnedBy(customerId), NotOwnedBy(customerId));
    Filter(accounts, NotOwnedBy(customerId))
  }

  /** The variant a new account gets: checking from 18, savings from 14, none below. */
  function KindForAge(age: int): (r: Option<Kind>)
    ensures r.None? <==> age < 14
    ensures r == Some(Checking) <==> age >= 18
  {
    if age >= 18 then Some(Checking)
    else if age >= 14 then Some(Savings)
    else None
  }

  // ---------------------------------------------------------------- invariants

  /** Customer ids are 1, 2, 3, ... in list order: registration appends `len + 1` and nothing removes. */
  predicate CustomerIdsFollowPositions(customers: seq<Customer>)
  {
    forall i :: 0 <= i < |customers| ==> customers[i].id == i + 1
  }

  /** Transaction ids are 1, 2, 3, ... in list order: the log is append-only. */
  predicate TransactionIdsFollowPositions(transactions: seq<Transaction>)
  {
    forall i :: 0 <= i < |transactions| ==> transactions[i].id == i + 1
  }

  /** Account ids are 1, 2, 3, ... in list order, as they are until the first delete. */
  predicate AccountIdsFollowPositions(accounts: seq<Account>)
  {
    forall i :: 0 <= i < |accounts| ==> accounts[i].accountId == i + 1
  }

  /** No customer owns two accounts. */
  predicate OneAccountPerCustomer(accounts: seq<Account>)
  {
    forall i, j :: 0 <= i < j < |accounts| ==> accounts[i].customerId != accounts[j].customerId
  }

  // ---------------------------------------------------------------- lemmas

  /** The age bands: checking exactly from 18, savings exactly from 14 up to 17, nothing below 14. */
  lemma KindForAgeBands(age: int)
    ensures KindForAge(age) == Some(Checking) <==> age >= 18
    ensures KindForAge(age) == Some(Savings) <==> 14 <= age < 18
    ensures KindForAge(age) == None <==> age < 14
  {
  }

  /** The delete filter keeps the survivors' order: it distributes over concatenation. */
  lemma WithoutCustomerKeepsOrder(front: seq<Account>, back: seq<Account>, customerId: int)
    ensures WithoutCustomer(front + back, customerId)
      == WithoutCustomer(front, customerId) + WithoutCustomer(back, customerId)
  {
    FilterAppend(front, back, NotOwnedBy(customerId));
  }

  /** Deleting for a customer without accounts changes nothing. */
  lemma WithoutCustomerNoop(accounts: seq<Account>, customerId: int)
    requires forall i :: 0 <= i < |accounts| ==> accounts[i].customerId != customerId
    ensures WithoutCustomer(accounts, customerId) == accounts
  {
    FilterAll(accounts, NotOwnedBy(customerId));
  }

  /** A customer with no account in the list finds none. */
  lemma {:induction false} NoAccountsOf(accounts: seq<Account>, customerId: int)
    requires forall a :: a in accounts ==> a.customerId != customerId
    ensures AccountsOf(accounts, customerId) == []
  {
    if |accounts| > 0 {
      assert accounts[0] in accounts;
      NoAccountsOf(accounts[1..], customerId);
    }
  }

  /** With one account per customer, a customer owns at most one account. */
  lemma {:induction false} AtMostOneAccount(accounts: seq<Account>, customerId: int)
    requires OneAccountPerCustomer(accounts)
    ensures |AccountsOf(accounts, customerId)| <= 1
  {
    if |accounts| > 0 {
      var rest := accounts[1..];
      assert OneAccountPerCustomer(rest);
      AtMostOneAccount(rest, customerId);
      if accounts[0].customerId == customerId {
        forall a | a in rest
          ensures a.customerId != customerId
        {
          var k :| 0 <= k < |rest| && rest[k] == a;
          assert accounts[k + 1] == a;
        }
        NoAccountsOf(rest, customerId);
      }
    }
  }

  /** Deleting a customer's accounts keeps one account per customer. */
  lemma {:induction false} WithoutCustomerKeepsOneAccount(accounts: seq<Account>, customerId: int)
    requires OneAccountPerCustomer(accounts)
    ensures OneAccountPerCustomer(WithoutCustomer(accounts, customerId))
  {
    if |accounts| > 0 {
      var rest := accounts[1..];
      assert OneAccountPerCustomer(rest);
      WithoutCustomerKeepsOneAccount(rest, customerId);
      assert [accounts[0]] + rest == accounts;
      WithoutCustomerKeepsOrder([accounts[0]], rest, customerId);
      var tail := WithoutCustomer(rest, customerId);
      forall a | a in tail
        ensures a.customerId != accounts[0].customerId
      {
        var k :| 0 <= k < |rest| && rest[k] == a;
        assert accounts[k + 1] == a;
      }
    }
  }

  /**
   * Account ids are not unique once a delete has happened: if ids follow
   * positions and a customer other than the owner of the last account
   * deletes, the id the next opening would get (`len + 1`) already belongs
   * to a remaining account.
   */
  lemma AccountIdReusedAfterDelete(accounts: seq<Account>, customerId: int)
    requires AccountIdsFollowPositions(accounts) && OneAccountPerCustomer(accounts)
    requires exists i :: 0 <= i < |accounts| && accounts[i].customerId == customerId
    requires accounts[|accounts| - 1].customerId != customerId
    ensures var rest := WithoutCustomer(accounts, customerId);
      exists a :: a in rest && a.accountId == |rest| + 1
  {
    var i :| 0 <= i < |accounts| && accounts[i].customerId == customerId;
    assert accounts[i] in AccountsOf(accounts, customerId);
    AtMostOneAccount(accounts, customerId);
    var last := accounts[|accounts| - 1];
    assert last in WithoutCustomer(accounts, customerId);
  }

  /** The transaction just logged is its account's last one of its kind. */
  lemma LastTransactionOfAppended(transactions: seq<Transaction>, tx: Transaction)
    ensures LastTransaction(transactions + [tx], tx.accountId, tx.kind) == Some(tx)
  {
    var t := transactions + [tx];
    var r := LastTransaction(t, tx.accountId, tx.kind);
    assert t[|t| - 1] == tx;
    assert r.Some?;
    var i :| 0 <= i < |t| && t[i] == r.value && r.value.accountId == tx.accountId && r.value.kind == tx.kind
      && forall j :: i < j < |t| ==> !(t[j].accountId == tx.accountId && t[j].kind == tx.kind);
    assert i == |t| - 1;
  }

  /**
   * A logged transaction stays its account's last one of its kind while
   * everything logged after it is of another account or another kind.
   */
  lemma LastTransactionSurvives(transactions: seq<Transaction>, tx: Transaction, rest: seq<Transaction>)
    requires forall u :: u in rest ==> !(u.accountId == tx.accountId && u.kind == tx.kind)
    ensures LastTransaction(transactions + [tx] + rest, tx.accountId, tx.kind) == Some(tx)
  {
    var t := transactions + [tx] + rest;
    var k := |transactions|;
    var r := LastTransaction(t, tx.accountId, tx.kind);
    assert t[k] == tx;
    assert r.Some?;
    var i :| 0 <= i < |t| && t[i] == r.value && r.value.accountId == tx.accountId && r.value.kind == tx.kind
      && forall j :: i < j < |t| ==> !(t[j].accountId == tx.accountId && t[j].kind == tx.kind);
    assert i == k;
  }

  /**
   * Once a savings account has logged a withdrawal or transfer at some time,
   * the next one of that kind, whatever other transactions were logged in
   * between, is refused up to 30 days later, and after that only the balance
   * decides.
   */
  lemma ThrottledAfterLogged(transactions: seq<Transaction>, a: Account, tx: Transaction, rest: seq<Transaction>,
                             balance: int, amount: int, later: int)
    requires a.kind == Savings && tx.accountId == a.accountId
    requires forall u :: u in rest ==> !(u.accountId == tx.accountId && u.kind == tx.kind)
    ensures History(transactions + [tx] + rest, a, tx.kind) == Some(tx)
    ensures Permits(a.kind, balance, amount, History(transactions + [tx] + rest, a, tx.kind), later)
      <==> later > tx.time + ThrottleWindow && balance - amount >= 0
  {
    LastTransactionSurvives(transactions, tx, rest);
  }

  // ---------------------------------------------------------------- the store

  class Store {
    var customers: seq<Customer>
    var accounts: seq<Account>
    var transactions: seq<Transaction>

    /** The store as loaded at start-up. */
    constructor (customers: seq<Customer>, accounts: seq<Account>, transactions: seq<Transaction>)
      ensures this.customers == customers && this.accounts == accounts && this.transactions == transactions
    {
      this.customers := customers;
      this.accounts := accounts;
      this.transactions := transactions;
    }

    /** What the session's own operations keep true of the lists. */
    ghost predicate Valid()
      reads this
    {
      && CustomerIdsFollowPositions(customers)
      && TransactionIdsFollowPositions(transactions)
      && OneAccountPerCustomer(accounts)
    }

    /** Registers a customer under the next id, `len(customers) + 1`. */
    method RegisterCustomer(firstName: string, lastName: string, age: int) returns (c: Customer)
      modifies this
      ensures c == Customer(firstName, lastName, age, |old(customers)| + 1)
      ensures customers == old(customers) + [c]
      ensures accounts == old(accounts) && transactions == old(transactions)
      ensures old(Valid()) ==> Valid()
    {
      c := Customer(firstName, lastName, age, |customers| + 1);
      customers := customers + [c];
    }

    /**
     * Opens an account for `c`: refused when `c` already owns one, otherwise
     * of the variant `c`'s age calls for (none below 14), with the next id
     * `len(accounts) + 1` and a zero balance, appended at the end.
     */
    method OpenAccount(c: Customer) returns (created: Option<Account>)
      modifies this
      ensures created.Some? <==> |AccountsOf(old(accounts), c.id)| == 0 && KindForAge(c.age).Some?
      ensures created.None? ==> accounts == old(accounts)
      ensures created.Some? ==>
        && fresh(created.value)
        && accounts == old(accounts) + [created.value]
        && created.value.Record() == AccountRecord(c.firstName, c.lastName, c.age,
             |old(accounts)| + 1, c.id, KindForAge(c.age).value, 0)
      ensures customers == old(customers) && transactions == old(transactions)
      ensures old(Valid()) ==> Valid()
    {
      if |AccountsOf(accounts, c.id)| > 0 {
        return None;
      }
      match KindForAge(c.age)
      case None =>
        created := None;
      case Some(kind) =>
        var a := new Account(AccountRecord(c.firstName, c.lastName, c.age, |accounts| + 1, c.id, kind, 0));
        assert forall i :: 0 <= i < |accounts| ==> accounts[i].customerId != c.id;
        accounts := accounts + [a];
        created := Some(a);
    }

    /** Deposits into `c`'s current account and logs it; refused only when `c` has no account. */
    method Deposit(c: Customer, amount: int, now: int) returns (ok: bool)
      modifies this, accounts
      ensures customers == old(customers) && accounts == old(accounts)
      ensures ok <==> CurrentAccount(accounts, c.id).Some?
      ensures ok ==>
        var a := CurrentAccount(accounts, c.id).value;
        && a.balance == old(a.balance) + amount
        && transactions == old(transactions)
             + [Transaction(|old(transactions)| + 1, a.accountId, TxKind.Deposit, c.id, 0, amount, now)]
      ensures !ok ==> transactions == old(transactions)
      ensures forall a :: a in accounts && Some(a) != CurrentAccount(accounts, c.id) ==> a.balance == old(a.balance)
      ensures old(Valid()) ==> Valid()
    {
      var current := CurrentAccount(accounts, c.id);
      if current.None? {
        return false;
      }
      var a := current.value;
      ok := a.Deposit(amount);
      transactions := transactions
        + [Transaction(|transactions| + 1, a.accountId, TxKind.Deposit, c.id, 0, amount, now)];
    }

    /**
     * Withdraws from `c`'s current account under its variant's policy, a
     * savings account being given its last withdrawal; logs it on success.
     */
    method Withdraw(c: Customer, amount: int, now: int) returns (ok: bool)
      modifies this, accounts
      ensures customers == old(customers) && accounts == old(accounts)
      ensures CurrentAccount(accounts, c.id).None? ==> !ok && transactions == old(transactions)
      ensures CurrentAccount(accounts, c.id).Some? ==>
        var a := CurrentAccount(accounts, c.id).value;
        && ok == Permits(a.kind, old(a.balance), amount, History(old(transactions), a, TxKind.Withdraw), now)
        && a.balance == (if ok then old(a.balance) - amount else old(a.balance))
        && transactions == old(transactions) + (if ok then
             [Transaction(|old(transactions)| + 1, a.accountId, TxKind.Withdraw, c.id, 0, amount, now)]
           else [])
      ensures forall a :: a in accounts && Some(a) != CurrentAccount(accounts, c.id) ==> a.balance == old(a.balance)
      ensures old(Valid()) ==> Valid()
    {
      var current := CurrentAccount(accounts, c.id);
      if current.None? {
        return false;
      }
      var a := current.value;
      var last := History(transactions, a, TxKind.Withdraw);
      ok := a.Withdraw(amount, last, now);
      if ok {
        transactions := transactions
          + [Transaction(|transactions| + 1, a.accountId, TxKind.Withdraw, c.id, 0, amount, now)];
      }
    }

    /**
     * Transfers from `c`'s current account to the first account with id
     * `receiverId` under the sender's policy, a savings sender being given its
     * last transfer; logs it, with the receiver's id, on success.
     */
    method Transfer(c: Customer, amount: int, receiverId: int, now: int) returns (ok: bool)
      modifies this, accounts
      ensures customers == old(customers) && accounts == old(accounts)
      ensures CurrentAccount(accounts, c.id).None? || FindAccount(accounts, receiverId).None? ==>
        && !ok && transactions == old(transactions)
        && forall a :: a in accounts ==> a.balance == old(a.balance)
      ensures CurrentAccount(accounts, c.id).Some? && FindAccount(accounts, receiverId).Some? ==>
        var s, r := CurrentAccount(accounts, c.id).value, FindAccount(accounts, receiverId).value;
        && ok == Permits(s.kind, old(s.balance), amount, History(old(transactions), s, TxKind.Transfer), now)
        && (s != r ==>
             && s.balance == (if ok then old(s.balance) - amount else old(s.balance))
             && r.balance == (if ok then old(r.balance) + amount else old(r.balance)))
        && (s == r ==> s.balance == old(s.balance))
        && transactions == old(transactions) + (if ok then
             [Transaction(|old(transactions)| + 1, s.accountId, TxKind.Transfer, c.id, r.accountId, amount, now)]
           else [])
      ensures forall a ::
        (a in accounts && Some(a) != CurrentAccount(accounts, c.id) && Some(a) != FindAccount(accounts, receiverId))
        ==> a.balance == old(a.balance)
      ensures old(Valid()) ==> Valid()
    {
      var current := CurrentAccount(accounts, c.id);
      if current.None? {
        return false;
      }
      var receiver := FindAccount(accounts, receiverId);
      if receiver.None? {
        return false;
      }
      var s, r := current.value, receiver.value;
      var last := History(transactions, s, TxKind.Transfer);
      ok := s.Transfer(amount, r, last, now);
      if ok {
        var tx := Transaction(|transactions| + 1, s.accountId, TxKind.Transfer, c.id, r.accountId, amount, now);
        assert TransactionIdsFollowPositions(transactions) ==> TransactionIdsFollowPositions(transactions + [tx]);
        transactions := transactions + [tx];
      }
      assert CurrentAccount(accounts, c.id) == Some(s) && FindAccount(accounts, receiverId) == Some(r);
    }

    /**
     * Deletes `c`'s accounts: when `c` has one, every account of `c` is
     * removed, not only the current one, and the others stay in order.
     */
    method DeleteAccounts(c: Customer) returns (deleted: bool)
      modifies this
      ensures deleted <==> |AccountsOf(old(accounts), c.id)| > 0
      ensures accounts == WithoutCustomer(old(accounts), c.id)
      ensures AccountsOf(accounts, c.id) == []
      ensures old(Valid()) ==> |AccountsOf(old(accounts), c.id)| <= 1
      ensures customers == old(customers) && transactions == old(transactions)
      ensures old(Valid()) ==> Valid()
    {
      var current := CurrentAccount(accounts, c.id);
      if current.None? {
        WithoutCustomerNoop(accounts, c.id);
        NoAccountsOf(accounts, c.id);
        assert AccountsOf(old(accounts), c.id) == [];
        return false;
      }
      assert current.value in AccountsOf(accounts, c.id);
      if OneAccountPerCustomer(accounts) {
        AtMostOneAccount(accounts, c.id);
        WithoutCustomerKeepsOneAccount(accounts, current.value.customerId);
      }
      accounts := WithoutCustomer(accounts, current.value.customerId);
      NoAccountsOf(accounts, c.id);
      deleted := true;
    }
  }

  // ---------------------------------------------------------------- two operations in a row

  /**
   * Two withdrawals by the same customer: when the current account is a
   * savings account, the second is refused if it comes within 30 days of a
   * first that went through.
   */
  method WithdrawTwice(st: Store, c: Customer, first: int, second: int, now: int, later: int)
    returns (ok1: bool, ok2: bool)
    modifies st, st.accounts
    ensures var a := CurrentAccount(st.accounts, c.id);
      a.Some? && a.value.kind == Savings && later <= now + ThrottleWindow ==> !(ok1 && ok2)
  {
    var before := st.transactions;
    ok1 := st.Withdraw(c, first, now);
    var current := CurrentAccount(st.accounts, c.id);
    if ok1 && current.Some? && current.value.kind == Savings {
      var a := current.value;
      var tx := Transaction(|before| + 1, a.accountId, TxKind.Withdraw, c.id, 0, first, now);
      assert st.transactions == before + [tx] + [];
      ThrottledAfterLogged(before, a, tx, [], a.balance, second, later);
    }
    ok2 := st.Withdraw(c, second, later);
  }

  /**
   * Two transfers by the same customer: when the current account is a
   * savings account, the second is refused if it comes within 30 days of a
   * first that went through, whatever the receivers.
   */
  method TransferTwice(st: Store, c: Customer, first: int, firstReceiver: int,
                       second: int, secondReceiver: int, now: int, later: int)
    returns (ok1: bool, ok2: bool)
    modifies st, st.accounts
    ensures var a := CurrentAccount(st.accounts, c.id);
      a.Some? && a.value.kind == Savings && later <= now + ThrottleWindow ==> !(ok1 && ok2)
  {
    var before := st.transactions;
    ok1 := st.Transfer(c, first, firstReceiver, now);
    var current := CurrentAccount(st.accounts, c.id);
    var receiver := FindAccount(st.accounts, firstReceiver);
    if ok1 && current.Some? && receiver.Some? && current.value.kind == Savings {
      var a := current.value;
      var tx := Transaction(|before| + 1, a.accountId, TxKind.Transfer, c.id, receiver.value.accountId, first, now);
      assert st.transactions == before + [tx] + [];
      ThrottledAfterLogged(before, a, tx, [], a.balance, second, later);
    }
    ok2 := st.Transfer(c, second, secondReceiver, later);
  }

  /**
   * A withdrawal, a deposit, then another withdrawal by the same customer:
   * the deposit logged in between does not lift the throttle, so when the
   * current account is a savings account the second withdrawal is refused if
   * it comes within 30 days of a first that went through.
   */
  method WithdrawDepositWithdraw(st: Store, c: Customer, first: int, deposit: int, second: int,
                                 now: int, middle: int, later: int)
    returns (ok1: bool, okDeposit: bool, ok2: bool)
    modifies st, st.accounts
    ensures var a := CurrentAccount(st.accounts, c.id);
      a.Some? && a.value.kind == Savings && later <= now + ThrottleWindow ==> !(ok1 && ok2)
  {
    var before := st.transactions;
    ok1 := st.Withdraw(c, first, now);
    var logged := st.transactions;
    okDeposit := st.Deposit(c, deposit, middle);
    var current := CurrentAccount(st.accounts, c.id);
    if ok1 && current.Some? && current.value.kind == Savings {
      var a := current.value;
      var tx := Transaction(|before| + 1, a.accountId, TxKind.Withdraw, c.id, 0, first, now);
      var rest := st.transactions[|logged|..];
      assert st.transactions == before + [tx] + rest;
      assert forall u :: u in rest ==> u.kind == TxKind.Deposit;
      ThrottledAfterLogged(before, a, tx, rest, a.balance, second, later);
    }
    ok2 := st.Withdraw(c, second, later);
  }
}
