/**
 * The decision logic of the console handlers for a single deposit or
 * withdrawal and for a transfer, as pure steps on the ledger: the account
 * map, the transaction list and the transaction counter. Prompts,
 * confirmations and printing are left to the caller; the amount, the
 * account numbers and the clock reading arrive as parameters.
 */
module Teller {
  import opened Results
  import opened Text
  import opened Decimal
  import opened Accounts
  import opened Transactions
  import opened TransactionStore
  import opened AccountStore

  datatype Ledger = Ledger(
    accounts: map<string, Account>,
    transactions: seq<Transaction>,
    transactionCounter: nat)

  /** How a single deposit or withdrawal ended. */
  datatype ProcessOutcome = AccountNotFound | Declined | OverdraftThrown | Completed

  /** How a transfer ended; `OverdraftError` is the exception escaping the handler. */
  datatype TransferOutcome =
    | SourceNotFound
    | TargetNotFound
    | SameAccount
    | NonPositiveAmount
    | WithdrawalRejected
    | OverdraftError
    | DepositFailedRestored
    | Transferred

  datatype Step<O> = Step(outcome: O, ledger: Ledger)

  /**
   * A single deposit or withdrawal on `number`: a transaction is recorded
   * only when `processTransaction` returned true, and it carries the
   * account's balance after the operation.
   */
  function ProcessAndRecord(l: Ledger, number: string, tag: string, amount: Hundredths, timestamp: string): (r: Step<ProcessOutcome>)
    ensures r.outcome == AccountNotFound <==> number !in l.accounts
    ensures r.outcome != Completed ==> r.ledger == l
    ensures r.outcome == Completed ==>
      && number in l.accounts && number in r.ledger.accounts
      && r.ledger.accounts == l.accounts[number := r.ledger.accounts[number]]
      && |r.ledger.transactions| == |l.transactions| + 1
      && r.ledger.transactions[..|l.transactions|] == l.transactions
      && var t := r.ledger.transactions[|l.transactions|];
         && t.account == number && t.kind == tag && t.amount == amount
         && t.balanceAfter == r.ledger.accounts[number].balance
         && t.timestamp == timestamp
         && r.ledger.transactionCounter == l.transactionCounter + 1
         && t.id == TransactionId(r.ledger.transactionCounter)
    ensures r.outcome == Completed <==>
      number in l.accounts && ProcessTransaction(l.accounts[number], amount, tag) == Returned(true, r.ledger.accounts[number])
    ensures r.outcome == Declined <==>
      number in l.accounts && ProcessTransaction(l.accounts[number], amount, tag).Returned?
      && !ProcessTransaction(l.accounts[number], amount, tag).success
    ensures r.outcome == OverdraftThrown <==>
      number in l.accounts && ProcessTransaction(l.accounts[number], amount, tag).OverdraftRaised?
  {
    match FindAccount(l.accounts, number)
    case None => Step(AccountNotFound, l)
    case Some(a) =>
      match ProcessTransaction(a, amount, tag)
      case OverdraftRaised => Step(OverdraftThrown, l)
      case Returned(success, a') =>
        if !success then Step(Declined, l)
        else
          var rec := NewTransaction(l.transactionCounter, number, tag, amount, a'.balance, timestamp);
          Step(Completed, Ledger(l.accounts[number := a'], AddTransaction(l.transactions, rec.transaction), rec.counter))
  }

  /**
   * `handleTransfer` after both numbers were entered: lookups, the
   * same-account and positive-amount checks, the withdrawal from the source
   * first, then the deposit to the target and the two records (or, should
   * the deposit fail, a deposit back to the source).
   */
  function Transfer(l: Ledger, from: string, to: string, amount: Hundredths, timestamp: string): (r: Step<TransferOutcome>)
    ensures r.outcome == SourceNotFound <==> from !in l.accounts
    ensures r.outcome == TargetNotFound <==> from in l.accounts && to !in l.accounts
    ensures r.outcome == SameAccount <==>
      from in l.accounts && to in l.accounts && EqualsIgnoreCase(l.accounts[from].number, l.accounts[to].number)
    ensures r.outcome != Transferred ==> r.ledger == l
    ensures r.outcome == Transferred <==>
      && from in l.accounts && to in l.accounts
      && !EqualsIgnoreCase(l.accounts[from].number, l.accounts[to].number)
      && amount > 0
      && Withdraw(l.accounts[from], amount).outcome == Ok
    ensures r.outcome == NonPositiveAmount <==>
      && from in l.accounts && to in l.accounts
      && !EqualsIgnoreCase(l.accounts[from].number, l.accounts[to].number)
      && amount <= 0
    ensures r.outcome == WithdrawalRejected <==>
      && from in l.accounts && to in l.accounts
      && !EqualsIgnoreCase(l.accounts[from].number, l.accounts[to].number)
      && amount > 0
      && Withdraw(l.accounts[from], amount).outcome == InsufficientFunds
    ensures r.outcome == OverdraftError <==>
      && from in l.accounts && to in l.accounts
      && !EqualsIgnoreCase(l.accounts[from].number, l.accounts[to].number)
      && amount > 0
      && Withdraw(l.accounts[from], amount).outcome == OverdraftExceeded
    ensures r.outcome != DepositFailedRestored
  {
    if from !in l.accounts then Step(SourceNotFound, l)
    else if to !in l.accounts then Step(TargetNotFound, l)
    else
      var source := l.accounts[from];
      var target := l.accounts[to];
      if EqualsIgnoreCase(source.number, target.number) then Step(SameAccount, l)
      else if amount <= 0 then Step(NonPositiveAmount, l)
      else
        var w := Withdraw(source, amount);
        match w.outcome
        case InsufficientFunds => Step(WithdrawalRejected, l)
        case OverdraftExceeded => Step(OverdraftError, l)
        case Ok =>
          var d := Deposit(target, amount);
          if d.ok then
            var debit := NewTransaction(l.transactionCounter, from, "WITHDRAW", amount, w.account.balance, timestamp);
            var credit := NewTransaction(debit.counter, to, "DEPOSIT", amount, d.account.balance, timestamp);
            var accounts := l.accounts[from := w.account][to := d.account];
            Step(Transferred, Ledger(accounts, l.transactions + [debit.transaction, credit.transaction], credit.counter))
          else
            var restored := Deposit(w.account, amount).account;
            Step(DepositFailedRestored, Ledger(l.accounts[from := restored], l.transactions, l.transactionCounter))
  }

  /** Two keys whose accounts differ in number ignoring case are different keys. */
  lemma DistinctKeys(l: Ledger, from: string, to: string)
    requires from in l.accounts && to in l.accounts
    requires !EqualsIgnoreCase(l.accounts[from].number, l.accounts[to].number)
    ensures from != to
  {
  }

  /**
   * A completed transfer debits the source and credits the target by the
   * amount, changes no other account, and appends exactly two records:
   * WITHDRAW on the source, then DEPOSIT on the target, each with its
   * account's new balance.
   */
  lemma TransferEffect(l: Ledger, from: string, to: string, amount: Hundredths, timestamp: string)
    requires Transfer(l, from, to, amount, timestamp).outcome == Transferred
    ensures var l' := Transfer(l, from, to, amount, timestamp).ledger;
      && from != to
      && l'.accounts == l.accounts[from := l.accounts[from].(balance := l.accounts[from].balance - amount)]
                                  [to := l.accounts[to].(balance := l.accounts[to].balance + amount)]
      && l'.accounts.Keys == l.accounts.Keys
      && l'.accounts[from] == l.accounts[from].(balance := l.accounts[from].balance - amount)
      && l'.accounts[to] == l.accounts[to].(balance := l.accounts[to].balance + amount)
      && (forall k :: k in l.accounts && k != from && k != to ==> l'.accounts[k] == l.accounts[k])
      && |l'.transactions| == |l.transactions| + 2
      && l'.transactions[..|l.transactions|] == l.transactions
      && l'.transactions[|l.transactions|].account == from
      && l'.transactions[|l.transactions|].kind == "WITHDRAW"
      && l'.transactions[|l.transactions|].amount == amount
      && l'.transactions[|l.transactions|].balanceAfter == l'.accounts[from].balance
      && l'.transactions[|l.transactions| + 1].account == to
      && l'.transactions[|l.transactions| + 1].kind == "DEPOSIT"
      && l'.transactions[|l.transactions| + 1].amount == amount
      && l'.transactions[|l.transactions| + 1].balanceAfter == l'.accounts[to].balance
      && l'.transactions[|l.transactions|].id == TransactionId(l.transactionCounter + 1)
      && l'.transactions[|l.transactions| + 1].id == TransactionId(l.transactionCounter + 2)
      && l'.transactions[|l.transactions|].timestamp == timestamp
      && l'.transactions[|l.transactions| + 1].timestamp == timestamp
      && l'.transactionCounter == l.transactionCounter + 2
  {
    DistinctKeys(l, from, to);
  }

  /** Rewriting two different stored accounts changes the total by the two balance differences. */
  lemma SumAfterTwoPuts(m: map<string, Account>, from: string, to: string, a: Account, b: Account)
    requires from in m && to in m && from != to
    ensures SumBalances(m[from := a][to := b]) == SumBalances(m) - m[from].balance - m[to].balance + a.balance + b.balance
  {
    var m1 := m[from := a];
    SumBalancesPut(m, from, a);
    SumBalancesPut(m1, to, b);
  }

  /** A completed transfer keeps the pair sum and the bank total. */
  lemma CompletedTransferConserves(l: Ledger, from: string, to: string, amount: Hundredths, timestamp: string)
    requires Transfer(l, from, to, amount, timestamp).outcome == Transferred
    ensures var l' := Transfer(l, from, to, amount, timestamp).ledger;
      && from in l.accounts && to in l.accounts && from in l'.accounts && to in l'.accounts
      && l'.accounts[from].balance + l'.accounts[to].balance == l.accounts[from].balance + l.accounts[to].balance
      && SumBalances(l'.accounts) == SumBalances(l.accounts)
  {
    TransferEffect(l, from, to, amount, timestamp);
    var source := l.accounts[from];
    var target := l.accounts[to];
    SumAfterTwoPuts(l.accounts, from, to, source.(balance := source.balance - amount), target.(balance := target.balance + amount));
  }

  /** Every transfer outcome leaves the sum of the two balances, and the bank's total, as they were. */
  lemma TransferConserves(l: Ledger, from: string, to: string, amount: Hundredths, timestamp: string)
    requires from in l.accounts && to in l.accounts
    ensures var l' := Transfer(l, from, to, amount, timestamp).ledger;
      && from in l'.accounts && to in l'.accounts
      && l'.accounts[from].balance + l'.accounts[to].balance == l.accounts[from].balance + l.accounts[to].balance
      && SumBalances(l'.accounts) == SumBalances(l.accounts)
  {
    if Transfer(l, from, to, amount, timestamp).outcome == Transferred {
      CompletedTransferConserves(l, from, to, amount, timestamp);
    }
  }
}
