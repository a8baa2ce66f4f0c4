/**
 * Worked examples, proved about the model, on the values the repository's
 * unit tests use. Amounts are in hundredths: 100000 is 1000.00.
 */
module Scenarios {
  import opened Text
  import opened Customers
  import opened Accounts
  import opened Transactions
  import opened TransactionStore
  import opened AccountStore
  import opened Teller

  function TestCustomer(): Customer
  {
    NewCustomer(0, "Test User", 30, "123", "Anywhere", Regular).customer
  }

  /**
   * Savings at 1000.00 with the Regular minimum 500.00: withdrawing 500.00
   * lands exactly on the minimum; 0.01 more is refused, and so are 500.01
   * and 600.01 from the start, with the balance unchanged and no exception.
   */
  lemma SavingsScenario()
    ensures var a := NewSavings(0, TestCustomer(), 100_000).account;
      && Withdraw(a, 40_000).account.balance == 60_000
      && Withdraw(a, 50_000) == Withdrawal(Ok, a.(balance := 50_000))
      && Withdraw(a.(balance := 50_000), 1) == Withdrawal(InsufficientFunds, a.(balance := 50_000))
      && Withdraw(a, 50_001) == Withdrawal(InsufficientFunds, a)
      && Withdraw(a, 60_001) == Withdrawal(InsufficientFunds, a)
      && ProcessTransaction(a, 50_001, "withdraw") == Returned(false, a)
      && Deposit(a, 5_000).account.balance == 105_000
  {
  }

  /**
   * Checking at 500.00 with overdraft 1000.00: 1200.00 takes it to -700.00,
   * 1500.00 to exactly -1000.00, after which 0.01 more throws; from -200.00
   * a deposit of 300.00 gives 100.00.
   */
  lemma CheckingScenario()
    ensures var a := NewChecking(0, TestCustomer(), 50_000).account;
      && Withdraw(a, 120_000).account.balance == -70_000
      && Withdraw(a, 150_000).account.balance == -100_000
      && Withdraw(a.(balance := -100_000), 1).outcome == OverdraftExceeded
      && ProcessTransaction(a.(balance := -100_000), 1, "WITHDRAW") == OverdraftRaised
      && Deposit(Withdraw(a, 70_000).account, 30_000).account.balance == 10_000
  {
  }

  /** The two accounts `TransferTest` opens for one customer, in a fresh ledger. */
  function TransferTestLedger(): Ledger
  {
    var c := NewCustomer(0, "Transfer", 30, "123", "TestAddress", Regular).customer;
    var s := NewSavings(0, c, 100_000);
    var k := NewChecking(s.counter, c, 5_000);
    Ledger(AddAccount(AddAccount(map[], s.account), k.account), [], 0)
  }

  /** Savings 1000.00 to Checking 50.00, transfer 100.00: balances 900.00 and 150.00, two records. */
  lemma TransferScenario()
    ensures
      var r := Transfer(TransferTestLedger(), "ACC001", "ACC002", 10_000, "2025-01-01 10:00:00");
      && r.outcome == Transferred
      && r.ledger.accounts["ACC001"].balance == 90_000
      && r.ledger.accounts["ACC002"].balance == 15_000
      && |r.ledger.transactions| == 2
  {
    var c := NewCustomer(0, "Transfer", 30, "123", "TestAddress", Regular).customer;
    var s := NewSavings(0, c, 100_000).account;
    var k := NewChecking(1, c, 5_000).account;
    assert s.number == "ACC001" && k.number == "ACC002";
    var l := TransferTestLedger();
    assert l.accounts == map[]["ACC001" := s]["ACC002" := k];
    assert Upper("ACC001"[5]) != Upper("ACC002"[5]);
    assert !EqualsIgnoreCase(s.number, k.number);
    assert Withdraw(s, 10_000).outcome == Ok;
    TransferEffect(l, "ACC001", "ACC002", 10_000, "2025-01-01 10:00:00");
  }

  /** The log `TransactionManagerTest` sets up: three entries on TSTMGR01, then one on OTHERID. */
  function ManagerTestLog(): seq<Transaction>
  {
    var t1 := Transaction("TXN0001", "TSTMGR01", "DEPOSIT", 100_000, 100_000, "t");
    var t2 := Transaction("TXN0002", "TSTMGR01", "WITHDRAW", 20_000, 80_000, "t");
    var t3 := Transaction("TXN0003", "TSTMGR01", "DEPOSIT", 5_000, 85_000, "t");
    var t4 := Transaction("TXN0004", "OTHERID", "DEPOSIT", 50_000, 50_000, "t");
    AddTransaction(AddTransaction(AddTransaction(AddTransaction([], t1), t2), t3), t4)
  }

  /** Totals of the test log, entry by entry. */
  lemma ManagerTestTotals(kind: string, expected: int)
    requires (kind == "DEPOSIT" && expected == 105_000) || (kind == "WITHDRAW" && expected == 20_000)
    ensures Total(ManagerTestLog(), "TSTMGR01", kind) == expected
  {
    var s := ManagerTestLog();
    assert s == [s[0]] + [s[1]] + [s[2]] + [s[3]];
    EqualsIgnoreCaseEquivalence("TSTMGR01", "TSTMGR01", "TSTMGR01");
    EqualsIgnoreCaseEquivalence(kind, kind, kind);
    TotalAppend([], s[0], "TSTMGR01", kind);
    TotalAppend([s[0]], s[1], "TSTMGR01", kind);
    TotalAppend([s[0]] + [s[1]], s[2], "TSTMGR01", kind);
    TotalAppend([s[0]] + [s[1]] + [s[2]], s[3], "TSTMGR01", kind);
  }

  /**
   * Three entries on one account and one on another: deposits 1050.00,
   * withdrawals 200.00, net change 850.00, four entries in all.
   */
  lemma TotalsScenario()
    ensures var s := ManagerTestLog();
      && |s| == 4
      && TotalDeposits(s, "TSTMGR01") == 105_000
      && TotalWithdrawals(s, "TSTMGR01") == 20_000
      && NetChange(s, "TSTMGR01") == 85_000
  {
    ManagerTestTotals("DEPOSIT", 105_000);
    ManagerTestTotals("WITHDRAW", 20_000);
  }
}
