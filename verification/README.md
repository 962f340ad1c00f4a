# Banking ledger — a Dafny model

This project models the core of a small file-backed banking ledger
(`banking.py`). Customers register, open one account each, and deposit,
withdraw or transfer money. There are two account variants:

- A **checking** account may be overdrawn down to a floor of −200.
- A **savings** account may not go below 0. It also refuses a withdrawal or a
  transfer when the account's previous operation of the same kind happened
  within the last 30 days. The caller looks that transaction up in the log,
  by list order, and hands it to the account.

Every successful deposit, withdrawal or transfer appends one transaction to an
append-only log.
Deleting removes every account of the customer, not only the current one.
In a store that keeps one account per customer there is at most one such
account, so the difference shows only for account files that break that rule.
The records are stored as comma-joined lines, one per record.

Modules, one per component:

- `Accounts` (`accounts.dfy`): the account class. The identity fields are
  constants and `balance` is the one mutable field. `Deposit`, `Withdraw` and
  `Transfer` change it in place. `Permits` is the single switch over the
  variant's policy.
- `Ledger` (`ledger.dfy`): the `Store` class, which holds the customers,
  accounts and transactions as sequences. Its methods are the shell's
  operations. The module also has the list scans as functions (the source's
  list comprehensions) and the invariants the operations keep.
- `Records` and `Text` (`records.dfy`, `text.dfy`): the three line formats and
  their parsers. Python's `split`, `join`, `strip`, `str(int)` and
  `str(float)` are written out for cent-exact amounts.
- `Entities`, `Lists`, `Wrappers`: the value records, generic
  filter/first/last scans, and `Option`.

Abstractions:

- Money is an `int` number of cents. The checking limit is `-200 * 100`.
- Time is an `int` number of microseconds, and the clock reading is the
  parameter `now`. The throttle refuses when `last.time >= now - 30 days`.
- Ids are `int`s.
- The session's current customer, the amount and the receiver id are
  parameters of the store's methods.

Account ids follow the rule `len(accounts) + 1`, so they are not unique once
an account has been deleted. The account class's documentation
(`banking.py:19-20`) calls the id the unique ID of the account, but the code
does not keep it unique. The model follows the code. The
lemma `Ledger.AccountIdReusedAfterDelete` shows the reuse: after a delete, the
id the next account would get can already belong to a remaining account.
Because of that, an account opened after a delete can share its id with an
older account. It then also shares that account's transaction history in the
throttle lookup. The transfer receiver lookup picks the first account with
the id.

## Model

| member | source | states |
|---|---|---|
| `Accounts.Account.Deposit` | banking.py:168-182 | always succeeds; the balance grows by exactly `amount` and nothing else changes (the checking variant, lines 292-306, is identical) |
| `Accounts.Account.Withdraw` | banking.py:216-241 | succeeds exactly when the variant's policy permits; on success the balance drops by `amount` and stays at or above the variant's floor; on failure nothing changes |
| `Accounts.Account.Transfer` | banking.py:184-214 | succeeds exactly when the sender's policy permits; sender loses and receiver gains `amount` together or neither changes; the sum of the two balances is kept; a self-transfer leaves the balance as it was; a non-negative transfer keeps the receiver within its floor |
| `Accounts.Permits` | banking.py:203-211 | the single policy switch: a permitted withdrawal or transfer never leaves the balance below the variant's floor, and a throttled savings account is never permitted (the checking side is lines 325-327 and 346-348) |
| `Accounts.Account.constructor` | banking.py:42-69 | an account holds exactly the given record's fields (both variants pass them on unchanged, lines 148-152 and 271-276) |
| `Accounts.PermitsByFloor` | banking.py:203-211 | both policies as one rule: refused when a savings account is throttled, otherwise permitted exactly when the balance stays at or above the variant's floor |
| `Accounts.CheckingRule` | banking.py:344-350 | a checking withdrawal or transfer ignores history and succeeds exactly when `balance - amount >= -200` |
| `Accounts.SavingsThrottleFirst` | banking.py:231-235 | a savings operation whose previous same-kind transaction is at or after `now - 30 days` is refused, whatever the amount and balance |
| `Accounts.SavingsBalanceRule` | banking.py:236-241 | without such a recent transaction, a savings operation succeeds exactly when `balance - amount >= 0` |
| `Ledger.AccountsOf` | banking.py:429 | the customer's accounts: exactly the listed accounts with that customer id |
| `Ledger.CurrentAccount` | banking.py:479-483 | the last account of the customer in list order, or none exactly when the customer has no account |
| `Ledger.FindAccount` | banking.py:529-534 | the first account in list order with the receiver id, or none exactly when no account has it |
| `Ledger.LastTransaction` | banking.py:505-510 | the last transaction in list order with the account id and kind, or none exactly when none matches |
| `Ledger.LastTransactionOfAppended` | banking.py:505-519 | the transaction a withdrawal or transfer has just appended is its account's last one of that kind |
| `Ledger.LastTransactionSurvives` | banking.py:505-510 | a logged transaction stays its account's last one of its kind, whatever is logged after it for other accounts or of other kinds |
| `Ledger.ThrottledAfterLogged` | banking.py:231-241 | once a savings account has logged a withdrawal or transfer, the next one of that kind, with any transactions of other accounts or kinds logged in between, is permitted exactly when it comes more than 30 days later and the balance stays at or above 0 |
| `Ledger.WithdrawTwice` | banking.py:502-519 | two withdrawals in a row from a savings account: the second is refused when the first went through and the second comes within 30 days of it |
| `Ledger.WithdrawDepositWithdraw` | banking.py:487-519 | a withdrawal, a deposit, then a withdrawal from a savings account: the deposit does not lift the throttle, so the second withdrawal is refused when the first went through and the second comes within 30 days of it |
| `Ledger.TransferTwice` | banking.py:526-548 | two transfers in a row from a savings account: the second is refused when the first went through and the second comes within 30 days of it, whatever the receivers |
| `Ledger.History` | banking.py:505-514 | a checking account is given no history; a savings account is given its last transaction of the asked kind in list order (`LastTransaction`), and none exactly when it has none |
| `Ledger.WithoutCustomer` | banking.py:567 | keeps exactly the accounts of other customers; its length is the original length minus the customer's accounts |
| `Ledger.WithoutCustomerKeepsOrder` | banking.py:567 | the delete filter distributes over concatenation, so survivors keep their order |
| `Ledger.WithoutCustomerNoop` | banking.py:559-563 | deleting for a customer without accounts changes nothing |
| `Ledger.WithoutCustomerKeepsOneAccount` | banking.py:567 | a delete keeps the one-account-per-customer invariant |
| `Ledger.AtMostOneAccount` | banking.py:429-433 | under that invariant a customer owns at most one account |
| `Ledger.AccountIdReusedAfterDelete` | banking.py:437 | after a delete, the id `len + 1` given to the next account can already belong to a remaining account |
| `Ledger.KindForAge` | banking.py:435-453 | no account exactly below age 14, and a checking account exactly from 18 |
| `Ledger.KindForAgeBands` | banking.py:435-453 | checking exactly from age 18, savings exactly from 14 to 17, no account below 14 |
| `Ledger.Store.constructor` | banking.py:366-390 | the store starts with the three loaded lists |
| `Ledger.Store.RegisterCustomer` | banking.py:404-405 | the new customer gets id `len(customers) + 1` and is appended; the invariants are kept |
| `Ledger.Store.OpenAccount` | banking.py:428-453 | refused when the customer owns an account or is under 14; otherwise a fresh account of the age's variant, id `len(accounts) + 1`, balance 0, appended after the unchanged old accounts; one account per customer is kept |
| `Ledger.Store.Deposit` | banking.py:487-499 | deposits into the current account and appends one `Deposit` transaction with id `len + 1` and receiver 0; refused only without an account; no other account changes |
| `Ledger.Store.Withdraw` | banking.py:502-524 | outcome as the current account's policy given its last withdrawal (savings only); appends one `Withdraw` transaction exactly on success; no other account changes |
| `Ledger.Store.Transfer` | banking.py:526-553 | refused without a current account or a receiver; otherwise outcome as the sender's policy given its last transfer (savings only); both balances move together; appends one `Transfer` transaction carrying the receiver's id exactly on success; no other account changes |
| `Ledger.Store.DeleteAccounts` | banking.py:559-570 | the accounts become exactly the other customers' accounts in order; the customer is left with none; reports whether there was one; in a store that keeps one account per customer there was at most one to delete |
| `Text.Split` | banking.py:374 | `split` gives at least one part and no part holds the separator |
| `Text.SplitJoin` | banking.py:496 | joining separator-free fields and splitting gives the fields back |
| `Text.JoinSplit` | banking.py:389 | splitting any text and joining gives it back |
| `Text.Strip` | banking.py:373 | `strip` gives a slice of the line with only white space removed before and after it, and no white space at either end |
| `Text.IntTextRoundTrip` | banking.py:408 | integers written with `str` read back as themselves |
| `Text.CentsTextRoundTrip` | banking.py:382 | a cent-exact amount written as `str(float)` reads back as itself |
| `Records.CustomerLine` | banking.py:408 | a customer is written as one newline-ended line that splits back into its four fields when the names hold no comma |
| `Records.AccountLine` | banking.py:441 | an account is written as one newline-ended line that splits back into its seven fields when the names hold no comma (the same format at lines 450 and 499) |
| `Records.TransactionLine` | banking.py:496 | a transaction is written as one newline-ended line that splits back into its seven fields |
| `Records.ParseCustomer` | banking.py:371-375 | a line is accepted exactly when its stripped text splits into four fields whose age and id read as integers; the customer's names are the first two fields as they stand, and its age and id are the values of the last two |
| `Records.ParseKind` | banking.py:380-384 | the type field gives a savings account exactly when it reads `Savings`, any other text a checking account |
| `Records.ParseAccount` | banking.py:377-384 | a line is accepted exactly when it splits into seven fields whose age and ids read as integers and whose balance reads as an amount; the record takes the names from fields one and two, the age, account id and customer id from fields three to five, the savings variant exactly when field six reads `Savings`, and the balance from field seven |
| `Records.AccountOfFields` | banking.py:380-384 | the same acceptance and field-by-field reading, on a list of fields already split |
| `Records.ParseTransaction` | banking.py:386-390 | a line is accepted exactly when it splits into seven fields whose ids and time read as integers, whose type names a kind and whose amount reads as an amount; each of the seven values is read from the field in its position |
| `Records.TransactionOfFields` | banking.py:389-390 | the same acceptance and field-by-field reading, on a list of fields already split |
| `Records.ParseTxKind` | banking.py:389 | the type field names a kind exactly when it is one of the three names the log writes, and then it is that kind |
| `Records.LineFieldsRoundTrip` | banking.py:496 | a written record line, stripped and split, gives back its fields |
| `Records.CustomerRoundTrip` | banking.py:371-375 | a customer line reads back as the same customer when the names hold no comma and the first name does not start with white space |
| `Records.AccountRoundTrip` | banking.py:377-384 | an account line reads back as the same account record under the same name conditions |
| `Records.TransactionRoundTrip` | banking.py:386-390 | a transaction line reads back as the same transaction |

## Left out

- Interactive menus, reading and converting user input, and all printing. This covers `Account.menu`, the `__str__` methods, the login prompt and the transaction table (lines 71-81, 122-123, 243-244, 352-353, 395-427, 455-477). It is the shell around the core. The current customer is a parameter of the store's methods.
- Opening, appending to and rewriting the three files (lines 360-371, 407-408, 440-441, 495-499, 520-524, 549-553, 568-570). Only the line formats and their parsers are modelled. The two-step persistence (append to the log, then rewrite the account snapshot) is not modelled.
- The `balance()` accessors (lines 154-166, 278-290): the model reads the `balance` field directly.
- The clock: `datetime.now()` becomes the parameter `now`. The source reads the clock once for the throttle check and again for the timestamp; the model uses one reading for both.
- Timestamp text: time is written as its integer text, not as `YYYY-MM-DD HH:MM:SS.ffffff`. `strptime` is not modelled. `str(datetime)` leaves out the microseconds when they are zero, which the `%f` format then rejects; this is not modelled either.
- Floating point: amounts are exact cents. Float rounding, sub-cent amounts and the exponent form `str(float)` uses from 1e16 upward are not modelled. Neither are the special values: the amounts come from `float(input())` (lines 488, 503, 528), which accepts `nan` and `inf`. With `nan`, every `<` test on the balance (lines 209, 237, 325, 346) is false, so the operation goes through and the balance becomes `nan`.
- Text ids: the source keeps ids and ages read back from the files as strings, while ids created during a session are integers. Its equality scans can then miss matches. The model keeps all ids as integers.
- `Text.ParseInt`, `Text.ParseCents`: read only the forms `str(int)` and `str(float)` write for the modelled values. Python's `int()` and `float()` accept more.
- `Records.ParseTransaction`: refuses an unknown transaction type, where the source keeps any text.
- Splitting a whole file into lines (`readlines`): the parsers take one line at a time.
- Amounts are not validated, as in the source. A negative deposit or transfer is accepted. The balance floors are therefore not a store invariant. `Accounts.Account.Transfer` keeps the receiver within its floor only for non-negative amounts.
