/**
 * Accounts: the Savings and Checking variants, their balance rules, the
 * type-tag dispatcher, id generation ("ACC001", ...) and the
 * comma-separated line format written by `toString` and read by
 * `fromString`.
 */
module Accounts {
  import opened Results
  import opened Text
  import opened Decimal
  import opened Customers

  /** The variant-specific rule set. */
  datatype Kind =
    | Savings(interestRate: Hundredths, minimumBalance: Hundredths)
    | Checking(overdraftLimit: Hundredths, monthlyFee: Hundredths)

  datatype Account = Account(
    number: string,
    customer: Customer,
    balance: Hundredths,
    status: string,
    kind: Kind)

  /** An account value paired with the account counter after its creation. */
  datatype Opened = Opened(account: Account, counter: nat)

  /** The outcome of `withdraw`: success, Savings' `false`, or Checking's `OverdraftExceededException`. */
  datatype WithdrawOutcome = Ok | InsufficientFunds | OverdraftExceeded

  datatype Withdrawal = Withdrawal(outcome: WithdrawOutcome, account: Account)

  /** A boolean result of `deposit` together with the account after it. */
  datatype Deposited = Deposited(ok: bool, account: Account)

  /**
   * The outcome of `processTransaction`: a boolean return, or the overdraft
   * exception, which leaves the balance alone. The model takes
   * `OverdraftExceededException` not to be a subclass of
   * `InsufficientFundException`, so the catch does not stop it; neither
   * class is part of this model.
   */
  datatype Processed = Returned(success: bool, account: Account) | OverdraftRaised

  /** `applyMonthlyFee` returns the new balance; `account` is the account after the deduction. */
  datatype FeeApplied = FeeApplied(balance: Hundredths, account: Account)

  /** The three-way result of `fromString`: an account, `null` (the line is skipped), or an exception. */
  datatype LineResult = Parsed(value: Account) | Skipped | Failed

  const ActiveStatus: string := "ACTIVE"
  const SavingsTag: string := "SavingsAccount"
  const CheckingTag: string := "CheckingAccount"

  /** The lowest balance a withdrawal may leave: the minimum balance, or minus the overdraft limit. */
  function Floor(a: Account): Hundredths
  {
    match a.kind
    case Savings(_, minimumBalance) => minimumBalance
    case Checking(overdraftLimit, _) => -overdraftLimit
  }

  /** "ACC" followed by the counter value padded to three digits (`ACC%03d`). */
  function AccountNumber(n: nat): string
  {
    "ACC" + ZeroPad(n, 3)
  }

  /** The constructor for new accounts: next number, balance as given, status ACTIVE. */
  function NewAccount(counter: nat, customer: Customer, initialBalance: Hundredths, kind: Kind): (r: Opened)
    ensures r.counter == counter + 1
    ensures r.account.number == AccountNumber(r.counter)
    ensures r.account.customer == customer && r.account.kind == kind
    ensures r.account.balance == initialBalance && r.account.status == ActiveStatus
  {
    Opened(Account(AccountNumber(counter + 1), customer, initialBalance, ActiveStatus, kind), counter + 1)
  }

  /** `new SavingsAccount(customer, balance)`: 5.0% and 100.00 for a Premium customer, else 3.5% and 500.00. */
  function NewSavings(counter: nat, customer: Customer, initialBalance: Hundredths): (r: Opened)
    ensures r.counter == counter + 1 && r.account.number == AccountNumber(counter + 1)
    ensures r.account.balance == initialBalance && r.account.status == ActiveStatus
    ensures r.account.customer == customer
    ensures customer.tier == Premium ==> r.account.kind == Savings(500, 10_000)
    ensures customer.tier == Regular ==> r.account.kind == Savings(350, 50_000)
  {
    var kind := if customer.tier == Premium then Savings(500, 10_000) else Savings(350, 50_000);
    NewAccount(counter, customer, initialBalance, kind)
  }

  /** `new CheckingAccount(customer, balance)`: overdraft limit 1000.00 and monthly fee 10.00 for everyone. */
  function NewChecking(counter: nat, customer: Customer, initialBalance: Hundredths): (r: Opened)
    ensures r.counter == counter + 1 && r.account.number == AccountNumber(counter + 1)
    ensures r.account.balance == initialBalance && r.account.status == ActiveStatus
    ensures r.account.customer == customer
    ensures r.account.kind == Checking(100_000, 1_000)
  {
    NewAccount(counter, customer, initialBalance, Checking(100_000, 1_000))
  }

  /** Accounts opened one after another never share a number. */
  lemma {:induction false} SequentialNumbersDistinct(counter: nat, k: nat)
    requires k >= 1
    requires counter + 1 + k <= JavaIntMax
    ensures AccountNumber(counter + 1) != AccountNumber(counter + 1 + k)
  {
    var a := AccountNumber(counter + 1);
    var b := AccountNumber(counter + 1 + k);
    assert a[3..] == ZeroPad(counter + 1, 3);
    assert b[3..] == ZeroPad(counter + 1 + k, 3);
    ZeroPadInjective(counter + 1, counter + 1 + k, 3);
  }

  /** `deposit`: refused for a non-positive amount, otherwise the balance grows by the amount. */
  function Deposit(a: Account, amount: Hundredths): (r: Deposited)
    ensures r.ok <==> amount > 0
    ensures r.ok ==> r.account == a.(balance := a.balance + amount)
    ensures !r.ok ==> r.account == a
  {
    if amount <= 0 then Deposited(false, a)
    else Deposited(true, a.(balance := a.balance + amount))
  }

  /**
   * `SavingsAccount.withdraw`: allowed when the balance after it is at
   * least the minimum balance, otherwise refused with the balance
   * untouched. The sign of the amount is not checked.
   */
  function SavingsWithdraw(a: Account, amount: Hundredths): (r: Withdrawal)
    requires a.kind.Savings?
    ensures r.outcome == Ok <==> a.balance - amount >= a.kind.minimumBalance
    ensures r.outcome != OverdraftExceeded
    ensures r.outcome == Ok ==> r.account == a.(balance := a.balance - amount)
    ensures r.outcome != Ok ==> r.account == a
  {
    if a.balance - amount >= a.kind.minimumBalance then Withdrawal(Ok, a.(balance := a.balance - amount))
    else Withdrawal(InsufficientFunds, a)
  }

  /**
   * `CheckingAccount.withdraw`: throws when the new balance would be below
   * minus the overdraft limit; the assignment comes after the check, so
   * the balance is untouched then.
   */
  function CheckingWithdraw(a: Account, amount: Hundredths): (r: Withdrawal)
    requires a.kind.Checking?
    ensures r.outcome == Ok <==> a.balance - amount >= -a.kind.overdraftLimit
    ensures r.outcome != InsufficientFunds
    ensures r.outcome == Ok ==> r.account == a.(balance := a.balance - amount)
    ensures r.outcome != Ok ==> r.account == a
  {
    var newBalance := a.balance - amount;
    if newBalance < -a.kind.overdraftLimit then Withdrawal(OverdraftExceeded, a)
    else Withdrawal(Ok, a.(balance := newBalance))
  }

  /**
   * The `withdraw` of either variant: it succeeds exactly when the balance
   * after it stays at or above the variant's floor, and then the floor
   * holds afterwards; a refusal changes nothing.
   */
  function Withdraw(a: Account, amount: Hundredths): (r: Withdrawal)
    ensures r.outcome == Ok <==> a.balance - amount >= Floor(a)
    ensures r.outcome == Ok ==> r.account == a.(balance := a.balance - amount)
    ensures r.outcome == Ok ==> r.account.balance >= Floor(r.account)
    ensures r.outcome != Ok ==> r.account == a
    ensures r.outcome == InsufficientFunds <==> a.kind.Savings? && r.outcome != Ok
    ensures r.outcome == OverdraftExceeded <==> a.kind.Checking? && r.outcome != Ok
  {
    match a.kind
    case Savings(_, _) => SavingsWithdraw(a, amount)
    case Checking(_, _) => CheckingWithdraw(a, amount)
  }

  /** A negative withdrawal from a Savings account at or above its floor is accepted and raises the balance. */
  lemma NegativeSavingsWithdrawalAccepted(a: Account, amount: Hundredths)
    requires a.kind.Savings? && a.balance >= a.kind.minimumBalance && amount < 0
    ensures Withdraw(a, amount).outcome == Ok
    ensures Withdraw(a, amount).account.balance > a.balance
  {
  }

  /** Depositing and then withdrawing the same positive amount restores an account that was at or above its floor. */
  lemma DepositThenWithdraw(a: Account, amount: Hundredths)
    requires amount > 0 && a.balance >= Floor(a)
    ensures Deposit(a, amount).ok
    ensures Withdraw(Deposit(a, amount).account, amount) == Withdrawal(Ok, a)
  {
  }

  /** `applyMonthlyFee`: always subtracts the fee and returns the new balance, with no overdraft or waiver check. */
  function ApplyMonthlyFee(a: Account): (r: FeeApplied)
    requires a.kind.Checking?
    ensures r.account == a.(balance := a.balance - a.kind.monthlyFee)
    ensures r.balance == r.account.balance
  {
    var b := a.balance - a.kind.monthlyFee;
    FeeApplied(b, a.(balance := b))
  }

  /** The fee is charged even when it takes the balance below minus the overdraft limit, and even for a Premium owner. */
  lemma FeeIgnoresLimitAndWaiver(a: Account)
    requires a.kind.Checking? && a.kind.monthlyFee > 0
    requires a.balance == -a.kind.overdraftLimit
    ensures ApplyMonthlyFee(a).balance < Floor(a)
    ensures a.customer.tier == Premium ==> ApplyMonthlyFee(a).balance < a.balance
  {
  }

  /** The balance change of `displayAccountDetails`: a Checking account is charged one monthly fee per display. */
  function Display(a: Account): (r: Account)
    ensures a.kind.Checking? ==> r == a.(balance := a.balance - a.kind.monthlyFee)
    ensures a.kind.Savings? ==> r == a
  {
    match a.kind
    case Savings(_, _) => a
    case Checking(_, _) => ApplyMonthlyFee(a).account
  }

  /** `calculateInterestEarned`: balance times rate over 100, in currency units. */
  function InterestEarned(a: Account): (r: real)
    requires a.kind.Savings?
    ensures r * 100.0 == (a.balance as real / 100.0) * (a.kind.interestRate as real / 100.0)
  {
    (a.balance * a.kind.interestRate) as real / 1_000_000.0
  }

  /**
   * `processTransaction`: "DEPOSIT" and "WITHDRAW", in any letter case,
   * go to `deposit` and `withdraw`; any other tag returns false. A refused
   * Savings withdrawal is a `false` return; an exceeded overdraft is taken
   * to escape (see `Processed`).
   */
  function ProcessTransaction(a: Account, amount: Hundredths, tag: string): (r: Processed)
    ensures r.OverdraftRaised? <==>
      EqualsIgnoreCase(tag, "WITHDRAW") && Withdraw(a, amount).outcome == OverdraftExceeded
    ensures r.Returned? && r.success ==>
      (EqualsIgnoreCase(tag, "DEPOSIT") && amount > 0 && r.account.balance == a.balance + amount) ||
      (EqualsIgnoreCase(tag, "WITHDRAW") && r.account.balance == a.balance - amount >= Floor(a))
    ensures r.Returned? ==> r.account == a.(balance := r.account.balance)
    ensures r.Returned? && !r.success ==> r.account == a
    ensures !EqualsIgnoreCase(tag, "DEPOSIT") && !EqualsIgnoreCase(tag, "WITHDRAW") ==> r == Returned(false, a)
    ensures EqualsIgnoreCase(tag, "DEPOSIT") && amount > 0 ==> r == Returned(true, a.(balance := a.balance + amount))
    ensures EqualsIgnoreCase(tag, "DEPOSIT") && amount <= 0 ==> r == Returned(false, a)
    ensures EqualsIgnoreCase(tag, "WITHDRAW") && a.balance - amount >= Floor(a) ==>
      r == Returned(true, a.(balance := a.balance - amount))
    ensures EqualsIgnoreCase(tag, "WITHDRAW") && a.kind.Savings? && a.balance - amount < Floor(a) ==>
      r == Returned(false, a)
  {
    if EqualsIgnoreCase(tag, "DEPOSIT") then
      var d := Deposit(a, amount);
      Returned(d.ok, d.account)
    else if EqualsIgnoreCase(tag, "WITHDRAW") then
      var w := Withdraw(a, amount);
      match w.outcome
      case Ok => Returned(true, w.account)
      case InsufficientFunds => Returned(false, a)
      case OverdraftExceeded => OverdraftRaised
    else Returned(false, a)
  }

  /**
   * `processTransaction` hands a matching tag to `deposit` or `withdraw`
   * and reports what they report; only a refused Savings withdrawal turns
   * from a refusal into `false` through the catch.
   */
  lemma ProcessTransactionDispatch(a: Account, amount: Hundredths, tag: string)
    ensures EqualsIgnoreCase(tag, "DEPOSIT") ==>
      ProcessTransaction(a, amount, tag) == Returned(Deposit(a, amount).ok, Deposit(a, amount).account)
    ensures EqualsIgnoreCase(tag, "WITHDRAW") && Withdraw(a, amount).outcome != OverdraftExceeded ==>
      ProcessTransaction(a, amount, tag) == Returned(Withdraw(a, amount).outcome == Ok, Withdraw(a, amount).account)
  {
  }

  /** `getClass().getSimpleName()`. */
  function ClassTag(a: Account): string
  {
    match a.kind
    case Savings(_, _) => SavingsTag
    case Checking(_, _) => CheckingTag
  }

  /** The first variant field: the interest rate, or the overdraft limit. */
  function First(k: Kind): Hundredths
  {
    match k
    case Savings(rate, _) => rate
    case Checking(limit, _) => limit
  }

  /** The second variant field: the minimum balance, or the monthly fee. */
  function Second(k: Kind): Hundredths
  {
    match k
    case Savings(_, minimum) => minimum
    case Checking(_, fee) => fee
  }

  /** The seven fields `toString` writes: the five common ones, then the two variant fields. */
  function AccountFields(a: Account): (fs: seq<string>)
    ensures |fs| == 7
  {
    [a.number, a.customer.name, Format(a.balance), ClassTag(a), a.status, Format(First(a.kind)), Format(Second(a.kind))]
  }

  /** `toString`: the fields joined with commas, with no escaping. */
  function AccountToString(a: Account): (s: string)
    ensures |a.number| < |s| && s[..|a.number|] == a.number && s[|a.number|] == ','
  {
    Join(AccountFields(a))
  }

  /** What a line written for `a` loads back as: the same account owned by a name-only Regular stub. */
  function Loaded(a: Account): Account
  {
    a.(customer := NameOnly(a.customer.name))
  }

  /** One of the two class tags `fromString` knows. */
  predicate KnownTag(tag: string)
  {
    tag == SavingsTag || tag == CheckingTag
  }

  /**
   * What `fromString` makes of the fields `p` of a line. Fewer than five
   * fields, or a readable balance next to an unknown type tag, gives `null`
   * (skipped). An unreadable balance, or a known tag whose two variant
   * fields are missing or unreadable, throws. Otherwise every field lands
   * in its place and the owner is a name-only stub.
   */
  predicate ReadsAs(p: seq<string>, r: LineResult)
  {
    && (r.Skipped? <==> |p| < 5 || (Parse(p[2]).Some? && !KnownTag(p[3])))
    && (r.Failed? <==>
          |p| >= 5 && (Parse(p[2]).None? ||
                       (KnownTag(p[3]) && (|p| < 7 || Parse(p[5]).None? || Parse(p[6]).None?))))
    && (r.Parsed? ==>
          && |p| >= 7
          && r.value.number == p[0]
          && r.value.customer == NameOnly(p[1])
          && Parse(p[2]) == Some(r.value.balance)
          && ClassTag(r.value) == p[3]
          && r.value.status == p[4]
          && Parse(p[5]) == Some(First(r.value.kind))
          && Parse(p[6]) == Some(Second(r.value.kind)))
  }

  /** `fromString` on a whole line: the line is split on commas, then read field by field. */
  function AccountFromString(line: string): (r: LineResult)
    ensures ReadsAs(Split(line), r)
    ensures CommaFree(line) ==> r == Skipped
  {
    FromFields(Split(line))
  }

  /** The decision `fromString` and the load constructors take on the fields of one line. */
  function FromFields(p: seq<string>): (r: LineResult)
    ensures ReadsAs(p, r)
  {
    if |p| < 5 then Skipped
    else match Parse(p[2])
      case None => Failed
      case Some(balance) =>
        if !KnownTag(p[3]) then Skipped
        else if |p| < 7 || Parse(p[5]).None? || Parse(p[6]).None? then Failed
        else
          var x, y := Parse(p[5]).value, Parse(p[6]).value;
          var kind := if p[3] == SavingsTag then Savings(x, y) else Checking(x, y);
          TagsDiffer();
          Parsed(Account(p[0], NameOnly(p[1]), balance, p[4], kind))
  }

  /** The fields `toString` writes verbatim hold no comma, so the line splits back into them. */
  predicate StorableAccount(a: Account)
  {
    CommaFree(a.number) && CommaFree(a.customer.name) && CommaFree(a.status)
  }

  /**
   * Saving and loading one account keeps number, balance, type, status and
   * both variant fields; only the customer is reduced to a name-only stub.
   */
  lemma AccountRoundTrip(a: Account)
    requires StorableAccount(a)
    ensures AccountFromString(AccountToString(a)) == Parsed(Loaded(a))
  {
    SplitAccountLine(a);
    FieldsRoundTrip(a);
  }

  /** The fields `toString` writes decode to the loaded form of the account. */
  lemma FieldsRoundTrip(a: Account)
    ensures FromFields(AccountFields(a)) == Parsed(Loaded(a))
  {
    var fs := AccountFields(a);
    assert fs[2] == Format(a.balance) && fs[5] == Format(First(a.kind)) && fs[6] == Format(Second(a.kind));
    DecodeFields(fs, a);
  }

  /** Fields carrying an account's values, each in its place, decode to its loaded form. */
  lemma DecodeFields(p: seq<string>, a: Account)
    requires |p| >= 7 && p[0] == a.number && p[1] == a.customer.name && p[3] == ClassTag(a) && p[4] == a.status
    requires p[2] == Format(a.balance) && p[5] == Format(First(a.kind)) && p[6] == Format(Second(a.kind))
    ensures FromFields(p) == Parsed(Loaded(a))
  {
    FieldParses(p[2], a.balance);
    FieldParses(p[5], First(a.kind));
    FieldParses(p[6], Second(a.kind));
    DecodeParsed(p, a);
  }

  lemma FieldParses(s: string, v: Hundredths)
    requires s == Format(v)
    ensures Parse(s) == Some(v)
  {
    ParseFormat(v);
  }

  /** Fields whose numbers parse to an account's values decode to its loaded form. */
  lemma DecodeParsed(p: seq<string>, a: Account)
    requires |p| >= 7 && p[0] == a.number && p[1] == a.customer.name && p[3] == ClassTag(a) && p[4] == a.status
    requires Parse(p[2]) == Some(a.balance) && Parse(p[5]) == Some(First(a.kind)) && Parse(p[6]) == Some(Second(a.kind))
    ensures FromFields(p) == Parsed(Loaded(a))
  {
    TagsDiffer();
    assert KnownTag(p[3]);
    match a.kind {
      case Savings(rate, minimum) =>
        assert p[3] == SavingsTag;
      case Checking(limit, fee) =>
        assert p[3] == CheckingTag;
    }
  }

  /** The two type tags differ, so the tag alone tells the variants apart. */
  lemma TagsDiffer()
    ensures SavingsTag != CheckingTag
  {
    assert SavingsTag[0] != CheckingTag[0];
  }

  lemma SplitAccountLine(a: Account)
    requires StorableAccount(a)
    ensures Split(AccountToString(a)) == AccountFields(a)
  {
    var fs := AccountFields(a);
    FormatHasNoComma(a.balance);
    FormatHasNoComma(First(a.kind));
    FormatHasNoComma(Second(a.kind));
    assert forall i :: 0 <= i < 7 ==> CommaFree(fs[i]);
    SplitJoin(fs);
  }

  /** Loading is lossy: whatever the original owner was, the loaded owner has no id and is Regular. */
  lemma LoadedCustomerIsStub(a: Account)
    requires StorableAccount(a)
    ensures AccountFromString(AccountToString(a)).Parsed?
    ensures AccountFromString(AccountToString(a)).value.customer.tier == Regular
    ensures AccountFromString(AccountToString(a)).value.customer.id.None?
  {
    AccountRoundTrip(a);
  }
}
