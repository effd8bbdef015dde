/** The bank ledger of `bank.js`: accounts with a validated ten-digit number,
    a balance that a single setter keeps non-negative and an append-only
    transaction log; individual and joint variants of deposit, withdraw and
    transfer; customers that reference accounts. */
module Bank {
  import opened Results
  import opened Seqs
  import opened Text

  /** The four error classes the ledger throws. */
  datatype BankError =
    | ValidationError
    | InsufficientFundsError
    | AuthorizationError
    | InvalidTransactionError

  // ---------------------------------------------------------------------
  // Transaction records

  datatype TxKind = DepositTx | WithdrawTx | TransferTx

  /** One log entry. `timestamp` is the clock reading taken when the record
      was made; the model receives it as a parameter. */
  datatype Transaction = Transaction(accountNumber: string, amount: int, kind: TxKind, timestamp: int)

  /** The string a record stores for its kind. */
  function KindName(k: TxKind): string {
    match k
    case DepositTx => "deposit"
    case WithdrawTx => "withdraw"
    case TransferTx => "transfer"
  }

  /** The `transactionType` setter: an empty string, and any string other
      than the three kind names, is rejected. */
  function ParseKind(s: string): (r: Result<TxKind, BankError>)
    ensures r.Err? ==> r.error == ValidationError
  {
    if |s| == 0 then Err(ValidationError)
    else if s == "deposit" then Ok(DepositTx)
    else if s == "withdraw" then Ok(WithdrawTx)
    else if s == "transfer" then Ok(TransferTx)
    else Err(ValidationError)
  }

  /** The setter accepts a string exactly when it names a kind, and then
      yields that kind. */
  lemma ParseKindInvertsKindName(s: string, k: TxKind)
    ensures ParseKind(s) == Ok(k) <==> s == KindName(k)
  {
  }

  // ---------------------------------------------------------------------
  // Accounts

  /** The account classes. A joint account carries its owners. */
  datatype Variant = Individual | Joint(owners: seq<string>)

  /** An account value. The `nat` type of `balance` is the ledger invariant:
      the only way from an arbitrary number to a balance is `SetBalance`. */
  datatype Account = Account(number: string, variant: Variant, balance: nat, log: seq<Transaction>)

  /** `^\d{10}$` read as the regular-expression engine reads it: `n` more
      ASCII digits and then the end of the input. */
  predicate DigitRun(s: string, n: nat) {
    if n == 0 then |s| == 0
    else |s| > 0 && IsAsciiDigit(s[0]) && DigitRun(s[1..], n - 1)
  }

  const AccountNumberLength: nat := 10

  /** The pattern accepts exactly the strings of `n` ASCII digits. */
  lemma {:induction false} DigitRunIffDigits(s: string, n: nat)
    ensures DigitRun(s, n) <==> |s| == n && forall i :: 0 <= i < |s| ==> IsAsciiDigit(s[i])
  {
    if n > 0 && |s| > 0 {
      DigitRunIffDigits(s[1..], n - 1);
      if |s| == n && forall i :: 0 <= i < |s| ==> IsAsciiDigit(s[i]) {
        assert forall i :: 0 <= i < |s[1..]| ==> IsAsciiDigit(s[1..][i]);
      }
    }
  }

  /** The `accountNumber` setter. */
  function CheckAccountNumber(s: string): (r: Result<string, BankError>)
    ensures r.Ok? <==> |s| == AccountNumberLength && forall i :: 0 <= i < |s| ==> IsAsciiDigit(s[i])
    ensures r.Ok? ==> r.value == s
    ensures r.Err? ==> r.error == ValidationError
  {
    DigitRunIffDigits(s, AccountNumberLength);
    if DigitRun(s, AccountNumberLength) then Ok(s) else Err(ValidationError)
  }

  /** The `balance` setter, the single place where a balance is checked. */
  function SetBalance(a: Account, value: int): (r: Result<Account, BankError>)
    ensures r.Ok? <==> value >= 0
    ensures r.Err? ==> r.error == ValidationError
    ensures r.Ok? ==> r.value.balance == value
    ensures r.Ok? ==> r.value.(balance := a.balance) == a
  {
    if value < 0 then Err(ValidationError) else Ok(a.(balance := value))
  }

  /** `balance += amount` through the setter; it cannot be rejected. */
  function Credit(a: Account, amount: int): (r: Account)
    requires amount > 0
    ensures r == a.(balance := a.balance + amount)
  {
    var updated := SetBalance(a, a.balance + amount);
    updated.value
  }

  /** `balance -= amount` through the setter, once the funds are known to
      suffice; it cannot be rejected. */
  function Debit(a: Account, amount: int): (r: Account)
    requires amount <= a.balance
    ensures r == a.(balance := a.balance - amount)
  {
    var updated := SetBalance(a, a.balance - amount);
    updated.value
  }

  /** `_addTransaction`: the one way onto the log. */
  function AddTransaction(a: Account, tx: Transaction): Account {
    a.(log := a.log + [tx])
  }

  /** `new IndividualAccount(number)`. */
  function NewIndividualAccount(number: string): (r: Result<Account, BankError>)
    ensures r.Ok? <==> |number| == AccountNumberLength && forall i :: 0 <= i < |number| ==> IsAsciiDigit(number[i])
    ensures r.Err? ==> r.error == ValidationError
    ensures r.Ok? ==> r.value == Account(number, Individual, 0, [])
  {
    var n :- CheckAccountNumber(number);
    Ok(Account(n, Individual, 0, []))
  }

  /** `new JointAccount(number, owners)`: the number is checked first, then
      the owners list must be non-empty. */
  function NewJointAccount(number: string, owners: seq<string>): (r: Result<Account, BankError>)
    ensures r.Ok? <==> (|number| == AccountNumberLength && forall i :: 0 <= i < |number| ==> IsAsciiDigit(number[i])) && |owners| > 0
    ensures r.Err? ==> r.error == ValidationError
    ensures r.Ok? ==> r.value == Account(number, Joint(owners), 0, [])
  {
    var n :- CheckAccountNumber(number);
    if |owners| == 0 then Err(ValidationError) else Ok(Account(n, Joint(owners), 0, []))
  }

  /** `IndividualAccount.deposit`. The balance is raised through the setter,
      but the record is pushed onto the copy the `transactions` getter
      returns, so it never reaches the account's log. */
  function IndividualDeposit(a: Account, amount: int, now: int): (r: Result<Account, BankError>)
    ensures r.Err? <==> amount <= 0
    ensures r.Err? ==> r.error == ValidationError
    ensures r.Ok? ==> r.value.balance == a.balance + amount
    ensures r.Ok? ==> r.value.log == a.log
    ensures r.Ok? ==> r.value.number == a.number && r.value.variant == a.variant
  {
    if amount <= 0 then Err(ValidationError)
    else
      var credited := Credit(a, amount);
      // The pushed-onto copy of the log, credited.log + [record], is discarded.
      Ok(credited)
  }

  /** `JointAccount.deposit`: no owner check; the record goes onto the log. */
  function JointDeposit(a: Account, amount: int, now: int): (r: Result<Account, BankError>)
    ensures r.Err? <==> amount <= 0
    ensures r.Err? ==> r.error == ValidationError
    ensures r.Ok? ==> r.value.balance == a.balance + amount
    ensures r.Ok? ==> r.value.log == a.log + [Transaction(a.number, amount, DepositTx, now)]
    ensures r.Ok? ==> r.value.number == a.number && r.value.variant == a.variant
  {
    if amount <= 0 then Err(ValidationError)
    else Ok(AddTransaction(Credit(a, amount), Transaction(a.number, amount, DepositTx, now)))
  }

  /** `deposit` dispatched on the account's class. */
  function AccountDeposit(a: Account, amount: int, now: int): (r: Result<Account, BankError>)
    ensures r.Err? <==> amount <= 0
    ensures r.Err? ==> r.error == ValidationError
    ensures r.Ok? ==> r.value.balance == a.balance + amount
    ensures r.Ok? && a.variant.Individual? ==> r.value.log == a.log
    ensures r.Ok? && a.variant.Joint? ==> r.value.log == a.log + [Transaction(a.number, amount, DepositTx, now)]
    ensures r.Ok? ==> r.value.number == a.number && r.value.variant == a.variant
  {
    match a.variant
    case Individual => IndividualDeposit(a, amount, now)
    case Joint(_) => JointDeposit(a, amount, now)
  }

  /** `withdraw`, the same in both classes: a non-positive amount is a
      validation error, then a balance below the amount is insufficient
      funds; otherwise the balance falls and one record is logged. */
  function Withdraw(a: Account, amount: int, now: int): (r: Result<Account, BankError>)
    ensures r == Err(ValidationError) <==> amount <= 0
    ensures r == Err(InsufficientFundsError) <==> 0 < amount && a.balance < amount
    ensures r.Ok? <==> 0 < amount <= a.balance
    ensures r.Ok? ==> r.value.balance == a.balance - amount
    ensures r.Ok? ==> r.value.log == a.log + [Transaction(a.number, amount, WithdrawTx, now)]
    ensures r.Ok? ==> r.value.number == a.number && r.value.variant == a.variant
  {
    if amount <= 0 then Err(ValidationError)
    else if a.balance < amount then Err(InsufficientFundsError)
    else Ok(AddTransaction(Debit(a, amount), Transaction(a.number, amount, WithdrawTx, now)))
  }

  // ---------------------------------------------------------------------
  // The log as an account of the balance

  /** The balance change a record stands for. */
  function Signed(t: Transaction): int {
    if t.kind == DepositTx then t.amount else -t.amount
  }

  /** The net of a log, oldest record first. */
  function Net(log: seq<Transaction>): int {
    if |log| == 0 then 0 else Signed(log[0]) + Net(log[1..])
  }

  lemma {:induction false} NetAppend(log: seq<Transaction>, t: Transaction)
    ensures Net(log + [t]) == Net(log) + Signed(t)
  {
    if |log| > 0 {
      assert (log + [t])[1..] == log[1..] + [t];
      NetAppend(log[1..], t);
    }
  }

  /** The log explains the balance. */
  predicate Balanced(a: Account) {
    a.balance == Net(a.log)
  }

  /** A new account is balanced; a joint deposit and a withdrawal keep an
      account balanced, but a successful individual deposit always breaks
      it, since its record never reaches the log. */
  lemma DepositLogAsymmetry(a: Account, amount: int, now: int)
    requires Balanced(a)
    ensures Balanced(Account(a.number, a.variant, 0, []))
    ensures JointDeposit(a, amount, now).Ok? ==> Balanced(JointDeposit(a, amount, now).value)
    ensures Withdraw(a, amount, now).Ok? ==> Balanced(Withdraw(a, amount, now).value)
    ensures IndividualDeposit(a, amount, now).Ok? ==> !Balanced(IndividualDeposit(a, amount, now).value)
  {
    NetAppend(a.log, Transaction(a.number, amount, DepositTx, now));
    NetAppend(a.log, Transaction(a.number, amount, WithdrawTx, now));
  }

  /** Depositing into a joint account and withdrawing the same amount
      restores the balance and leaves both records on the log. */
  lemma JointDepositThenWithdraw(a: Account, amount: int, t1: int, t2: int)
    requires amount > 0
    ensures JointDeposit(a, amount, t1).Ok?
    ensures Withdraw(JointDeposit(a, amount, t1).value, amount, t2).Ok?
    ensures Withdraw(JointDeposit(a, amount, t1).value, amount, t2).value
         == a.(log := a.log + [Transaction(a.number, amount, DepositTx, t1), Transaction(a.number, amount, WithdrawTx, t2)])
  {
  }

  // ---------------------------------------------------------------------
  // Transfers between accounts held in a store

  /** Object identity of an account. */
  type Ref = nat

  /** The live accounts, keyed by identity; two references to one account are
      one key, so a transfer to itself is a transfer between equal keys. */
  type Store = map<Ref, Account>

  /** The `targetAccount` argument: an account, or any other value. */
  datatype Target = AccountRef(ref: Ref) | NotAnAccount

  /** Every reference the arguments hold names a live account. */
  predicate Live(s: Store, src: Ref, target: Target) {
    src in s && (target.AccountRef? ==> target.ref in s)
  }

  /** `IndividualAccount.transferFunds`. The actor is not consulted. The
      target is checked first, then the amount, then the funds; a transfer
      then runs the statements of the source in order: debit the source,
      credit the target, log a transfer on the source and a deposit on the
      target, each step reading the store the previous one left. */
  function IndividualTransfer(s: Store, src: Ref, target: Target, amount: int, actor: string, now: int): (r: Result<Store, BankError>)
    requires Live(s, src, target)
    ensures r == Err(InvalidTransactionError) <==> target.NotAnAccount?
    ensures r == Err(ValidationError) <==> target.AccountRef? && amount <= 0
    ensures r == Err(InsufficientFundsError) <==> target.AccountRef? && 0 < amount && s[src].balance < amount
    ensures r.Ok? <==> target.AccountRef? && 0 < amount <= s[src].balance
    ensures r.Ok? ==> r.value.Keys == s.Keys
    ensures r.Ok? ==> forall x :: x in s && x != src && x != target.ref ==> r.value[x] == s[x]
    ensures r.Ok? && target.ref != src ==>
      && r.value[src] == s[src].(balance := s[src].balance - amount,
                                 log := s[src].log + [Transaction(s[src].number, amount, TransferTx, now)])
      && r.value[target.ref] == s[target.ref].(balance := s[target.ref].balance + amount,
                                               log := s[target.ref].log + [Transaction(s[target.ref].number, amount, DepositTx, now)])
    ensures r.Ok? && target.ref == src ==>
      r.value[src] == s[src].(log := s[src].log + [Transaction(s[src].number, amount, TransferTx, now),
                                                   Transaction(s[src].number, amount, DepositTx, now)])
  {
    if target.NotAnAccount? then Err(InvalidTransactionError)
    else if amount <= 0 then Err(ValidationError)
    else if s[src].balance < amount then Err(InsufficientFundsError)
    else
      var t := target.ref;
      var s1 := s[src := Debit(s[src], amount)];
      var s2 := s1[t := Credit(s1[t], amount)];
      var s3 := s2[src := AddTransaction(s2[src], Transaction(s2[src].number, amount, TransferTx, now))];
      Ok(s3[t := AddTransaction(s3[t], Transaction(s3[t].number, amount, DepositTx, now))])
  }

  /** `JointAccount.transferFunds`: an actor outside the owners list is
      refused before anything else is looked at; past that check the method
      runs the same statements as the individual one. */
  function JointTransfer(s: Store, src: Ref, target: Target, amount: int, actor: string, now: int): (r: Result<Store, BankError>)
    requires Live(s, src, target) && s[src].variant.Joint?
    ensures r == Err(AuthorizationError) <==> actor !in s[src].variant.owners
    ensures actor in s[src].variant.owners ==> r == IndividualTransfer(s, src, target, amount, actor, now)
  {
    if actor !in s[src].variant.owners then Err(AuthorizationError)
    else IndividualTransfer(s, src, target, amount, actor, now)
  }

  /** `transferFunds` dispatched on the source account's class. */
  function TransferFunds(s: Store, src: Ref, target: Target, amount: int, actor: string, now: int): (r: Result<Store, BankError>)
    requires Live(s, src, target)
    ensures r == Err(AuthorizationError) <==> s[src].variant.Joint? && actor !in s[src].variant.owners
    ensures !(s[src].variant.Joint? && actor !in s[src].variant.owners) ==>
      r == IndividualTransfer(s, src, target, amount, actor, now)
    ensures r.Ok? ==> target.AccountRef? && 0 < amount <= s[src].balance
    ensures r.Ok? ==> r.value.Keys == s.Keys
    ensures r.Ok? && target.ref != src ==>
      r.value[src].balance + r.value[target.ref].balance == s[src].balance + s[target.ref].balance
    ensures r.Ok? && target.ref == src ==> r.value[src].balance == s[src].balance
  {
    match s[src].variant
    case Individual => IndividualTransfer(s, src, target, amount, actor, now)
    case Joint(_) => JointTransfer(s, src, target, amount, actor, now)
  }

  /** The actor plays no part in an individual transfer. */
  lemma IndividualTransferIgnoresActor(s: Store, src: Ref, target: Target, amount: int, a1: string, a2: string, now: int)
    requires Live(s, src, target)
    ensures IndividualTransfer(s, src, target, amount, a1, now) == IndividualTransfer(s, src, target, amount, a2, now)
  {
  }

  /** A transfer keeps every balanced account balanced, the source and the
      target included, whether or not they are the same account. */
  lemma TransferKeepsBalanced(s: Store, src: Ref, target: Target, amount: int, actor: string, now: int)
    requires Live(s, src, target)
    requires forall x :: x in s ==> Balanced(s[x])
    ensures TransferFunds(s, src, target, amount, actor, now).Ok? ==>
      forall x :: x in TransferFunds(s, src, target, amount, actor, now).value ==>
        Balanced(TransferFunds(s, src, target, amount, actor, now).value[x])
  {
    var r := TransferFunds(s, src, target, amount, actor, now);
    if r.Ok? {
      var t := target.ref;
      var out := Transaction(s[src].number, amount, TransferTx, now);
      var credit := Transaction(s[t].number, amount, DepositTx, now);
      if t == src {
        NetAppend(s[src].log, out);
        NetAppend(s[src].log + [out], Transaction(s[src].number, amount, DepositTx, now));
        assert s[src].log + [out] + [Transaction(s[src].number, amount, DepositTx, now)]
            == s[src].log + [out, Transaction(s[src].number, amount, DepositTx, now)];
      } else {
        NetAppend(s[src].log, out);
        NetAppend(s[t].log, credit);
      }
    }
  }

  // ---------------------------------------------------------------------
  // Customers

  /** A bank customer: a name and the accounts it references. The contact
      string is stored unchecked. */
  datatype Customer = Customer(name: string, contactInfo: string, accounts: seq<Ref>)

  /** `new Customer(name, contactInfo)`: the name must keep a character after
      trimming. */
  function NewCustomer(name: string, contactInfo: string): (r: Result<Customer, BankError>)
    ensures r.Ok? <==> HasNonWhitespace(name)
    ensures r.Err? ==> r.error == ValidationError
    ensures r.Ok? ==> r.value == Customer(name, contactInfo, [])
  {
    BlankIffAllWhitespace(name);
    if IsBlank(name) then Err(ValidationError) else Ok(Customer(name, contactInfo, []))
  }

  /** `addAccount`: only an account may be added, as a reference at the end. */
  function AddAccount(c: Customer, account: Target): (r: Result<Customer, BankError>)
    ensures r.Err? <==> account.NotAnAccount?
    ensures r.Err? ==> r.error == ValidationError
    ensures r.Ok? ==> r.value == c.(accounts := c.accounts + [account.ref])
  {
    match account
    case NotAnAccount => Err(ValidationError)
    case AccountRef(x) => Ok(c.(accounts := c.accounts + [x]))
  }

  /** Every account the customer references is live. */
  predicate AccountsLive(s: Store, c: Customer) {
    forall i :: 0 <= i < |c.accounts| ==> c.accounts[i] in s
  }

  /** `viewTransactionHistory`: the log of the first referenced account with
      the given number, or a validation error when there is none. */
  function ViewTransactionHistory(s: Store, c: Customer, number: string): (r: Result<seq<Transaction>, BankError>)
    requires AccountsLive(s, c)
    ensures r.Err? <==> forall i :: 0 <= i < |c.accounts| ==> s[c.accounts[i]].number != number
    ensures r.Err? ==> r.error == ValidationError
    ensures r.Ok? ==> exists i :: 0 <= i < |c.accounts| && s[c.accounts[i]].number == number
                                   && (forall j :: 0 <= j < i ==> s[c.accounts[j]].number != number)
                                   && r.value == s[c.accounts[i]].log
  {
    match FirstIndex(c.accounts, x => x in s && s[x].number == number)
    case None => Err(ValidationError)
    case Some(i) => Ok(s[c.accounts[i]].log)
  }

  /** An account just added is what the history lookup finds by its number,
      unless an account referenced earlier has the same number. */
  lemma AddedAccountIsFound(s: Store, c: Customer, x: Ref)
    requires AccountsLive(s, c) && x in s
    requires forall i :: 0 <= i < |c.accounts| ==> s[c.accounts[i]].number != s[x].number
    ensures AddAccount(c, AccountRef(x)).Ok?
    ensures AccountsLive(s, AddAccount(c, AccountRef(x)).value)
    ensures ViewTransactionHistory(s, AddAccount(c, AccountRef(x)).value, s[x].number) == Ok(s[x].log)
  {
    var c' := AddAccount(c, AccountRef(x)).value;
    assert c'.accounts[|c.accounts|] == x;
    var r := ViewTransactionHistory(s, c', s[x].number);
    var i :| 0 <= i < |c'.accounts| && s[c'.accounts[i]].number == s[x].number && r.value == s[c'.accounts[i]].log;
    assert i == |c.accounts|;
  }

  /** An individual deposit is invisible in the customer's history while a
      joint one shows up as the last record. */
  lemma HistoryAfterDeposit(s: Store, c: Customer, x: Ref, amount: int, now: int)
    requires AccountsLive(s, c) && x in s && amount > 0
    requires forall i :: 0 <= i < |c.accounts| ==> s[c.accounts[i]].number != s[x].number || c.accounts[i] == x
    requires x in c.accounts
    ensures AccountDeposit(s[x], amount, now).Ok?
    ensures s[x].variant.Individual? ==>
      ViewTransactionHistory(s[x := AccountDeposit(s[x], amount, now).value], c, s[x].number)
        == ViewTransactionHistory(s, c, s[x].number)
    ensures s[x].variant.Joint? ==>
      ViewTransactionHistory(s[x := AccountDeposit(s[x], amount, now).value], c, s[x].number)
        == Ok(s[x].log + [Transaction(s[x].number, amount, DepositTx, now)])
  {
  }
}
