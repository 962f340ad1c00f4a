/**
 * The three files' line formats: fields joined by commas and ended by a
 * newline, read back by stripping the line and splitting it on commas.
 * There is no quoting, so a name round-trips only when it holds no comma
 * and the line does not begin with white space.
 */
module Records {
  import opened Wrappers
  import opened Entities
  import opened Text

  /** A name field the format can carry: no comma in it. */
  predicate CommaFree(s: string)
  {
    ',' !in s
  }

  /** A first field that `strip` leaves alone: empty, or not starting with white space. */
  predicate StartsClean(s: string)
  {
    |s| == 0 || !IsSpace(s[0])
  }

  /** Every field of `fields` can be written without ambiguity. */
  predicate FieldsCommaFree(fields: seq<string>)
  {
    forall i :: 0 <= i < |fields| ==> ',' !in fields[i]
  }

  /**
   * A record line: the fields joined by commas, then a newline. Without the
   * newline it splits back into the fields when there is at least one and
   * none of them holds a comma.
   */
  function Line(fields: seq<string>): (s: string)
    ensures |s| >= 1 && s[|s| - 1] == '\n'
    ensures |fields| >= 1 && FieldsCommaFree(fields) ==> Split(s[..|s| - 1], ',') == fields
  {
    var s := Join(fields, ',') + "\n";
    assert s[..|s| - 1] == Join(fields, ',');
    if |fields| >= 1 && FieldsCommaFree(fields) then SplitJoin(fields, ','); s else s
  }

  /** The fields of a stored line: the stripped line split on commas. */
  function Fields(line: string): seq<string>
  {
    Split(Strip(line), ',')
  }

  /** Fields written as a line are read back as the same fields. */
  lemma {:induction false} LineFieldsRoundTrip(fields: seq<string>)
    requires |fields| >= 2 && FieldsCommaFree(fields)
    requires StartsClean(fields[0])
    requires |fields[|fields| - 1]| >= 1 && IsDigit(fields[|fields| - 1][|fields[|fields| - 1]| - 1])
    ensures Fields(Line(fields)) == fields
  {
    var s := Join(fields, ',');
    JoinEnds(fields, ',');
    assert !IsSpace(',');
    StripLine(s);
    SplitJoin(fields, ',');
  }

  // ---------------------------------------------------------------- customers

  /** `first_name,last_name,age,customer_id`. */
  function CustomerFields(c: Customer): (f: seq<string>)
    ensures |f| == 4
  {
    [c.firstName, c.lastName, IntText(c.age), IntText(c.id)]
  }

  /** The customers-file line of `c`: its four fields, comma-joined, and a newline. */
  function CustomerLine(c: Customer): (s: string)
    ensures |s| >= 1 && s[|s| - 1] == '\n'
    ensures CommaFree(c.firstName) && CommaFree(c.lastName) ==> Split(s[..|s| - 1], ',') == CustomerFields(c)
  {
    Line(CustomerFields(c))
  }

  /** Four fields whose age and id read as integers. */
  predicate CustomerFieldsReadable(f: seq<string>)
  {
    |f| == 4 && ParseInt(f[2]).Some? && ParseInt(f[3]).Some?
  }

  /**
   * Reads a customers-file line: accepted exactly when it has four fields and
   * the age and id read as integers; the names are taken as they stand.
   */
  function ParseCustomer(line: string): (r: Option<Customer>)
    ensures r.Some? <==> CustomerFieldsReadable(Fields(line))
    ensures r.Some? ==>
      && r.value.firstName == Fields(line)[0] && r.value.lastName == Fields(line)[1]
      && ParseInt(Fields(line)[2]) == Some(r.value.age) && ParseInt(Fields(line)[3]) == Some(r.value.id)
  {
    var f := Fields(line);
    if |f| != 4 then None
    else match (ParseInt(f[2]), ParseInt(f[3]))
      case (Some(age), Some(id)) => Some(Customer(f[0], f[1], age, id))
      case _ => None
  }

  /** A customer line reads back as the same customer when the names fit the format. */
  lemma CustomerRoundTrip(c: Customer)
    requires CommaFree(c.firstName) && CommaFree(c.lastName) && StartsClean(c.firstName)
    ensures ParseCustomer(CustomerLine(c)) == Some(c)
  {
    var f := CustomerFields(c);
    assert Fields(CustomerLine(c)) == f by {
      LineFieldsRoundTrip(f);
    }
    IntTextRoundTrip(c.age);
    IntTextRoundTrip(c.id);
  }

  // ---------------------------------------------------------------- accounts

  /** `first_name,last_name,age,account_id,customer_id,account_type,balance`. */
  function AccountFields(a: AccountRecord): (f: seq<string>)
    ensures |f| == 7
  {
    [a.firstName, a.lastName, IntText(a.age), IntText(a.accountId), IntText(a.customerId),
     KindName(a.kind), CentsText(a.balance)]
  }

  /** The accounts-file line of `a`: its seven fields, comma-joined, and a newline. */
  function AccountLine(a: AccountRecord): (s: string)
    ensures |s| >= 1 && s[|s| - 1] == '\n'
    ensures CommaFree(a.firstName) && CommaFree(a.lastName) ==> Split(s[..|s| - 1], ',') == AccountFields(a)
  {
    if CommaFree(a.firstName) && CommaFree(a.lastName) then
      AccountFieldsCommaFree(a); Line(AccountFields(a))
    else Line(AccountFields(a))
  }

  /** Any type other than `Savings` is read as a checking account. */
  function ParseKind(s: string): (k: Kind)
    ensures k == Savings <==> s == KindName(Savings)
  {
    if s == "Savings" then Savings else Checking
  }

  /** Seven fields whose age and ids read as integers and whose balance reads as an amount. */
  predicate AccountFieldsReadable(f: seq<string>)
  {
    |f| == 7 && ParseInt(f[2]).Some? && ParseInt(f[3]).Some? && ParseInt(f[4]).Some? && ParseCents(f[6]).Some?
  }

  /**
   * Reads an accounts-file line: accepted exactly when its fields are
   * readable; the names are taken as they stand and the type field decides
   * the variant.
   */
  function ParseAccount(line: string): (r: Option<AccountRecord>)
    ensures r.Some? <==> AccountFieldsReadable(Fields(line))
    ensures r.Some? ==> ReadsAccount(Fields(line), r.value)
  {
    AccountOfFields(Fields(line))
  }

  /** `a` is the account the seven fields `f` spell, field by field. */
  predicate ReadsAccount(f: seq<string>, a: AccountRecord)
    requires |f| == 7
  {
    && a.firstName == f[0] && a.lastName == f[1]
    && ParseInt(f[2]) == Some(a.age) && ParseInt(f[3]) == Some(a.accountId)
    && ParseInt(f[4]) == Some(a.customerId)
    && (a.kind == Savings <==> f[5] == KindName(Savings))
    && ParseCents(f[6]) == Some(a.balance)
  }

  /** The account spelled by a list of fields, when they are readable. */
  function AccountOfFields(f: seq<string>): (r: Option<AccountRecord>)
    ensures r.Some? <==> AccountFieldsReadable(f)
    ensures r.Some? ==> ReadsAccount(f, r.value)
  {
    if |f| != 7 then None
    else match (ParseInt(f[2]), ParseInt(f[3]), ParseInt(f[4]), ParseCents(f[6]))
      case (Some(age), Some(id), Some(owner), Some(balance)) =>
        Some(AccountRecord(f[0], f[1], age, id, owner, ParseKind(f[5]), balance))
      case _ => None
  }

  /** An account line reads back as the same account record when the names fit the format. */
  lemma AccountRoundTrip(a: AccountRecord)
    requires CommaFree(a.firstName) && CommaFree(a.lastName) && StartsClean(a.firstName)
    ensures ParseAccount(AccountLine(a)) == Some(a)
  {
    var f := AccountFields(a);
    AccountFieldsCommaFree(a);
    assert Fields(AccountLine(a)) == f by {
      LineFieldsRoundTrip(f);
    }
    AccountFieldsRoundTrip(a);
  }

  /** Seven comma-free fields make a comma-free record. */
  lemma SevenCommaFree(f0: string, f1: string, f2: string, f3: string, f4: string, f5: string, f6: string)
    requires CommaFree(f0) && CommaFree(f1) && CommaFree(f2) && CommaFree(f3)
    requires CommaFree(f4) && CommaFree(f5) && CommaFree(f6)
    ensures FieldsCommaFree([f0, f1, f2, f3, f4, f5, f6])
  {
    var f := [f0, f1, f2, f3, f4, f5, f6];
    forall i | 0 <= i < |f| ensures ',' !in f[i] {
      if i < 4 {
        assert f[i] == [f0, f1, f2, f3][i];
      } else {
        assert f[i] == [f4, f5, f6][i - 4];
      }
    }
  }

  /** Only the names of an account can bring a comma into its fields. */
  lemma AccountFieldsCommaFree(a: AccountRecord)
    requires CommaFree(a.firstName) && CommaFree(a.lastName)
    ensures FieldsCommaFree(AccountFields(a))
  {
    IntTextCommaFree(a.age);
    IntTextCommaFree(a.accountId);
    IntTextCommaFree(a.customerId);
    assert CommaFree(KindName(a.kind));
    CentsTextCommaFree(a.balance);
    SevenCommaFree(a.firstName, a.lastName, IntText(a.age), IntText(a.accountId), IntText(a.customerId),
                   KindName(a.kind), CentsText(a.balance));
  }

  /** An account's fields read back as the same account record. */
  lemma AccountFieldsRoundTrip(a: AccountRecord)
    ensures AccountOfFields(AccountFields(a)) == Some(a)
  {
    IntTextRoundTrip(a.age);
    IntTextRoundTrip(a.accountId);
    IntTextRoundTrip(a.customerId);
    CentsTextRoundTrip(a.balance);
  }

  // ---------------------------------------------------------------- transactions

  /** `transaction_id,account_id,type,customer_id,receiver_id,amount,timestamp`. */
  function TransactionFields(t: Transaction): (f: seq<string>)
    ensures |f| == 7
  {
    [IntText(t.id), IntText(t.accountId), TxKindName(t.kind), IntText(t.customerId),
     IntText(t.receiverId), CentsText(t.amount), IntText(t.time)]
  }

  /** The log line of `t`: its seven fields, comma-joined, and a newline. */
  function TransactionLine(t: Transaction): (s: string)
    ensures |s| >= 1 && s[|s| - 1] == '\n'
    ensures Split(s[..|s| - 1], ',') == TransactionFields(t)
  {
    TransactionFieldsCommaFree(t);
    Line(TransactionFields(t))
  }

  /** The kind a type field names, for the three names the log writes; none for other text. */
  function ParseTxKind(s: string): (r: Option<TxKind>)
    ensures r.Some? ==> TxKindName(r.value) == s
    ensures forall k: TxKind :: s == TxKindName(k) ==> r == Some(k)
  {
    if s == "Deposit" then Some(Deposit)
    else if s == "Withdraw" then Some(Withdraw)
    else if s == "Transfer" then Some(Transfer)
    else None
  }

  /** Seven fields whose ids and time read as integers, type as a kind and amount as an amount. */
  predicate TransactionFieldsReadable(f: seq<string>)
  {
    && |f| == 7 && ParseInt(f[0]).Some? && ParseInt(f[1]).Some? && ParseTxKind(f[2]).Some?
    && ParseInt(f[3]).Some? && ParseInt(f[4]).Some? && ParseCents(f[5]).Some? && ParseInt(f[6]).Some?
  }

  /**
   * Reads a transaction-log line: accepted exactly when its fields are
   * readable, each field giving the transaction's value in that position.
   */
  function ParseTransaction(line: string): (r: Option<Transaction>)
    ensures r.Some? <==> TransactionFieldsReadable(Fields(line))
    ensures r.Some? ==> ReadsTransaction(Fields(line), r.value)
  {
    TransactionOfFields(Fields(line))
  }

  /** `t` is the transaction the seven fields `f` spell, field by field. */
  predicate ReadsTransaction(f: seq<string>, t: Transaction)
    requires |f| == 7
  {
    && ParseInt(f[0]) == Some(t.id) && ParseInt(f[1]) == Some(t.accountId)
    && TxKindName(t.kind) == f[2] && ParseInt(f[3]) == Some(t.customerId)
    && ParseInt(f[4]) == Some(t.receiverId) && ParseCents(f[5]) == Some(t.amount)
    && ParseInt(f[6]) == Some(t.time)
  }

  /** The transaction spelled by a list of fields, when they are readable. */
  function TransactionOfFields(f: seq<string>): (r: Option<Transaction>)
    ensures r.Some? <==> TransactionFieldsReadable(f)
    ensures r.Some? ==> ReadsTransaction(f, r.value)
  {
    if |f| != 7 then None
    else match (ParseInt(f[0]), ParseInt(f[1]), ParseTxKind(f[2]), ParseInt(f[3]))
      case (Some(id), Some(account), Some(kind), Some(owner)) =>
        (match (ParseInt(f[4]), ParseCents(f[5]), ParseInt(f[6]))
         case (Some(receiver), Some(amount), Some(time)) =>
           Some(Transaction(id, account, kind, owner, receiver, amount, time))
         case _ => None)
      case _ => None
  }

  /** A transaction line reads back as the same transaction. */
  lemma TransactionRoundTrip(t: Transaction)
    ensures ParseTransaction(TransactionLine(t)) == Some(t)
  {
    var f := TransactionFields(t);
    TransactionFieldsCommaFree(t);
    assert Fields(TransactionLine(t)) == f by {
      assert StartsClean(f[0]);
      LineFieldsRoundTrip(f);
    }
    TransactionFieldsRoundTrip(t);
  }

  /** The text of an integer is a sign and digits, never a comma. */
  lemma IntTextCommaFree(n: int)
    ensures CommaFree(IntText(n))
  {
    if n < 0 {
      assert IntText(n) == "-" + NatText(-n);
    }
  }

  /** The text of an amount is a sign, digits and a point, never a comma. */
  lemma CentsTextCommaFree(c: int)
    ensures CommaFree(CentsText(c))
  {
    var m := if c < 0 then -c else c;
    FractionTextValue(m % 100);
    assert CommaFree(UnsignedCentsText(m));
  }

  /** A transaction's fields never hold a comma. */
  lemma TransactionFieldsCommaFree(t: Transaction)
    ensures FieldsCommaFree(TransactionFields(t))
  {
    IntTextCommaFree(t.id);
    IntTextCommaFree(t.accountId);
    assert CommaFree(TxKindName(t.kind));
    IntTextCommaFree(t.customerId);
    IntTextCommaFree(t.receiverId);
    CentsTextCommaFree(t.amount);
    IntTextCommaFree(t.time);
    SevenCommaFree(IntText(t.id), IntText(t.accountId), TxKindName(t.kind), IntText(t.customerId),
                   IntText(t.receiverId), CentsText(t.amount), IntText(t.time));
  }

  /** A transaction's fields read back as the same transaction. */
  lemma TransactionFieldsRoundTrip(t: Transaction)
    ensures TransactionOfFields(TransactionFields(t)) == Some(t)
  {
    IntTextRoundTrip(t.id);
    IntTextRoundTrip(t.accountId);
    IntTextRoundTrip(t.customerId);
    IntTextRoundTrip(t.receiverId);
    CentsTextRoundTrip(t.amount);
    IntTextRoundTrip(t.time);
  }
}
