# Bank ledger core in Dafny

This project models the core of a console banking application written in Java:
- customers (Regular and Premium);
- accounts (Savings and Checking) with their deposit, withdrawal, fee and interest rules;
- transactions and the history kept for them;
- the in-memory account register and transaction log, including the comma-separated text lines both are saved to and loaded from;
- the decisions the console handlers make when a user processes a single transaction or transfers money between two accounts.

## Modules

Each module follows one class, or one group of classes, of the application:

| module | what it holds |
|---|---|
| `Results` | `Option` |
| `Text` | Java's `String.split(",")` (a split on every comma, then trailing empty pieces dropped), the comma join used by `toString`, and ASCII `equalsIgnoreCase` |
| `Decimal` | money as integer hundredths; the `%03d`/`%04d` zero padding of generated ids; the plain `Double.toString` form of an amount (`1000.0`, `500.01`); and a `parseDouble` for the forms written back |
| `Customers` | `Customer`, `RegularCustomer`, `PremiumCustomer` |
| `Accounts` | `Account`, `SavingsAccount`, `CheckingAccount`, including `toString`/`fromString` |
| `Transactions` | `Transaction`, including `toString`/`fromString` |
| `TransactionStore` | `TransactionManager`: the log, the per-account filters and totals, and save/load |
| `AccountStore` | `AccountManager`: the map keyed by account number, the totals, and save/load |
| `Teller` | the decision logic of `Functions.handleProcessTransaction` and `Functions.handleTransfer` over a ledger made of the account map, the transaction list and the transaction counter |
| `Scenarios` | the values used by the repository's unit tests, as worked examples proved about the model |

## Modelling choices

- **Money is an integer number of hundredths.** So `1000.00` is `100000` and a 3.5% rate is `350`. Arithmetic is exact; `double` rounding is not modelled.
- **Static counters are explicit.** Customer, account and transaction numbering each use a static counter; the model passes the counter in and returns the next one.
- **A timestamp is an input.** The wall-clock timestamp of a new transaction is a parameter.
- **Mutation is a returned new value.** Each mutating Java method returns a new value. `Withdrawal` carries the outcome and the resulting account; `Processed` does the same for `processTransaction`.
- **Exceptions are outcomes.**
  - `CheckingAccount.withdraw` throws `OverdraftExceededException`. This is the outcome `OverdraftExceeded`.
  - `Account.processTransaction` catches only `InsufficientFundException`. Neither exception class is part of this model, and the model assumes `OverdraftExceededException` is not a subclass of `InsufficientFundException`, so the overdraft exception escapes. That is `OverdraftRaised`, and it also escapes `handleTransfer` (`OverdraftError`).
  - A `fromString` that throws (`NumberFormatException`, `ArrayIndexOutOfBoundsException`) is `Failed`. One that returns `null` is `Skipped`.
  - For transactions, either case is `None`.
- **Loading has two failure shapes.**
  - `AccountManager.loadAccounts` clears the map and puts accounts as lines parse. An exception stops the stream, so a bad line leaves the accounts read before it (`Loading(accounts, completed)`).
  - `TransactionManager.loadTransaction` assigns the list only after the whole file parsed, so one bad line leaves the old list in place.
- **`HashMap` iteration order is an input.** `saveAccounts` writes the map's values in the `HashMap`'s iteration order, so `AccountStore.SaveAccounts` takes that order as a parameter: some sequence listing every key once.

### Where the code and its tests or its own flags disagree (the model follows the code)

- **`findAccount` is case-sensitive.** It is a plain `HashMap.get` (`AccountStore.FindIsCaseSensitive`). `AccountManagerTest.testFindAccountCaseInsensitivity` (src/test/java/services/AccountManagerTest.java:55-61) expects a lower-cased number such as `acc002` to find `ACC002`. The transfer's same-account check and the transaction filters do ignore case.
- **A refused Savings withdrawal returns `false`; it does not throw.** `SavingsAccountTest` expects `InsufficientFundException` for withdrawals below the minimum. The model's `SavingsScenario` shows the code's behaviour instead: the balance is unchanged and the result is `false`.
- **A withdrawal's sign is never checked.** A negative Savings withdrawal is accepted and raises the balance (`Accounts.NegativeSavingsWithdrawalAccepted`).
- **The monthly fee ignores its limits.** It can push a Checking balance below the overdraft floor, and it is charged even to Premium customers, whose fees are said to be waived (`Accounts.FeeIgnoresLimitAndWaiver`). `displayAccountDetails` charges it as a side effect (`Accounts.Display`).
- **Reloaded accounts lose customer details.** The customer becomes a name-only `RegularCustomer` (`Accounts.LoadedCustomerIsStub`), and the customer counter does not advance.

## Model

| member | source | states |
|---|---|---|
| Text.DropTrailingEmpty | src/main/java/modules/Account.java:76 | `split` keeps a prefix of the pieces; it drops only empty trailing ones, and the last piece kept is nonempty |
| Text.SplitJoin | src/main/java/modules/Account.java:76 | splitting a comma join gives back its fields, provided there are at least two, none has a comma, and the last is nonempty |
| Text.Split | src/main/java/modules/Account.java:76 | no piece holds a comma; a string without a comma comes back whole as its only piece; when there was a comma, the last piece kept is nonempty |
| Text.EqualsIgnoreCase | src/main/java/modules/Account.java:57-58 | two strings are equal ignoring case exactly when their upper-cased forms are equal |
| Text.EqualsIgnoreCaseEquivalence | src/main/java/services/TransactionManager.java:51-53 | ignoring case is reflexive, symmetric and transitive, so the account and type filters compare consistently |
| Decimal.DigitsOf | src/main/java/modules/Account.java:70 | the decimal digits of a number read back as that number, with no leading zero |
| Decimal.ZeroPad | src/main/java/modules/Account.java:23 | `%03d`-style padding is all digits, reads back as the number, and is exactly as wide as the width or the number's own digits, whichever is longer |
| Decimal.ZeroPadInjective | src/main/java/modules/Transaction.java:28 | different counters give different padded ids at the same width, including past the width |
| Decimal.FormatHasNoComma | src/main/java/modules/Account.java:70 | the text of any amount holds no comma, so it can sit in a comma-separated line |
| Decimal.Format | src/main/java/modules/Account.java:70 | the written amount starts with "-" exactly when it is negative, otherwise with a digit, and always ends with a digit |
| Decimal.Parse | src/main/java/modules/Account.java:81 | text that reads as an amount is nonempty; a leading "-" gives an amount at most zero and anything else one at least zero; a plain string of digits reads as that whole number |
| Decimal.ParseFormat | src/main/java/modules/Account.java:81 | `parseDouble` applied to the written form of any amount, negative ones included, gives back the amount |
| Customers.NewCustomer | src/main/java/modules/Customer.java:19-26 | the full constructor advances the counter by one, takes the id `CUS` plus the new counter padded to three digits, and keeps name, age, contact and address as given |
| Customers.NameOnly | src/main/java/modules/Customer.java:27-29 | the name-only constructor sets only the name; id, contact and address are absent and the customer is Regular |
| Customers.CustomerType | src/main/java/modules/PremiumCustomer.java:24-26 | the type text is "Premium" exactly for Premium customers and "Regular" exactly for Regular ones |
| Customers.HasWaivedFees | src/main/java/modules/PremiumCustomer.java:18-20 | a Premium customer always reports waived fees |
| Customers.MinimumBalanceRequirement | src/main/java/modules/PremiumCustomer.java:42-44 | a Premium customer's minimum balance requirement is 10000.00 |
| Customers.ConstructorsWellFormed | src/main/java/modules/PremiumCustomer.java:12-15 | every customer the constructors build is well formed: a Premium customer, built only by the full constructor, always has an id, and any id is `CUS` followed by a counter value of at least one |
| Customers.SequentialIdsDistinct | src/main/java/modules/Customer.java:20-21 | customers created one after another never share an id, as long as the `int` counter stays at or below its largest value |
| Accounts.NewAccount | src/main/java/modules/Account.java:21-27 | a new account advances the counter, takes number `ACC` plus the new counter padded to three digits, keeps customer and opening balance, and is ACTIVE |
| Accounts.NewSavings | src/main/java/modules/SavingsAccount.java:14-24 | a new Savings account pays 5.0% with a 100.00 minimum for a Premium customer, and 3.5% with a 500.00 minimum otherwise |
| Accounts.NewChecking | src/main/java/modules/CheckingAccount.java:14-18 | a new Checking account has a 1000.00 overdraft limit and a 10.00 monthly fee |
| Accounts.SequentialNumbersDistinct | src/main/java/modules/Account.java:22-23 | accounts opened one after another never share a number, as long as the `int` counter stays at or below its largest value |
| Accounts.Deposit | src/main/java/modules/Account.java:48-52 | a deposit succeeds exactly when the amount is positive and then adds it; otherwise the account is unchanged |
| Accounts.SavingsWithdraw | src/main/java/modules/SavingsAccount.java:52-67 | a Savings withdrawal succeeds exactly when the balance after it is at least the minimum balance; a refusal leaves the account unchanged and never raises |
| Accounts.CheckingWithdraw | src/main/java/modules/CheckingAccount.java:46-54 | a Checking withdrawal succeeds exactly when the balance after it is at least minus the overdraft limit; otherwise it raises the overdraft exception and the balance is untouched |
| Accounts.Withdraw | src/main/java/modules/Account.java:46 | for either variant, a withdrawal succeeds exactly when the new balance stays at or above the variant's floor, so the floor holds after every successful withdrawal; the kind of refusal identifies the variant |
| Accounts.NegativeSavingsWithdrawalAccepted | src/main/java/modules/SavingsAccount.java:54-56 | a negative withdrawal from a Savings account at or above its minimum is accepted and increases the balance |
| Accounts.DepositThenWithdraw | src/main/java/modules/Account.java:48-52 | depositing a positive amount and then withdrawing it again restores the account, from any balance that respects the floor |
| Accounts.ApplyMonthlyFee | src/main/java/modules/CheckingAccount.java:56-59 | the fee is taken from the balance and the new balance is returned; nothing else changes |
| Accounts.FeeIgnoresLimitAndWaiver | src/main/java/modules/CheckingAccount.java:56-59 | at the overdraft floor the fee still goes through and leaves the balance below the floor, and it is charged to Premium customers too |
| Accounts.Display | src/main/java/modules/CheckingAccount.java:35-37 | showing a Checking account's details charges one monthly fee; showing a Savings account changes nothing |
| Accounts.InterestEarned | src/main/java/modules/SavingsAccount.java:69-71 | the interest shown is the balance times the rate percent, in currency units |
| Accounts.ProcessTransaction | src/main/java/modules/Account.java:55-64 | DEPOSIT (any case) with a positive amount returns true and adds it, and with any other amount returns false unchanged; WITHDRAW (any case) returns true and debits exactly when the floor is kept, a refused Savings withdrawal returns false unchanged, and the overdraft exception is exactly the refused Checking withdrawal; any other type returns false unchanged; only the balance ever changes |
| Accounts.ProcessTransactionDispatch | src/main/java/modules/Account.java:57-62 | for a matching tag the result is what `deposit` or `withdraw` reports, a refused Savings withdrawal included |
| Accounts.AccountFromString | src/main/java/modules/Account.java:75-103 | the line is split on commas and read as `Accounts.FromFields` reads fields; a line without a comma is a single field and is skipped |
| Accounts.FromFields | src/main/java/modules/Account.java:77-101 | null (skipped) exactly for fewer than five fields or a readable balance next to an unknown type; an exception exactly for an unreadable balance, or a known type whose two variant fields are missing or unreadable; otherwise every field from its position, the variant fields as the load constructors store them, with a name-only customer |
| Accounts.SplitAccountLine | src/main/java/modules/Account.java:67-73 | the saved line of an account whose number, name and status hold no comma splits into exactly its seven fields, in order |
| Accounts.AccountToString | src/main/java/modules/Account.java:67-73 | the saved line starts with the account number followed by a comma |
| Accounts.AccountRoundTrip | src/main/java/modules/Account.java:75-97 | reading back the saved line of such an account gives the same account, except that the customer becomes a name-only stub |
| Accounts.DecodeParsed | src/main/java/modules/Account.java:87-97 | fields whose tag is the account's class name and whose three numbers parse to its balance and variant fields decode to that account, owned by a name-only stub |
| Accounts.LoadedCustomerIsStub | src/main/java/modules/Account.java:85 | a reloaded account's customer is Regular and has no id, whatever tier it had |
| Transactions.NewTransaction | src/main/java/modules/Transaction.java:25-40 | a new transaction advances the counter, takes id `TXN` plus the new counter padded to four digits, and keeps account, type, amount, balance after and timestamp as given |
| Transactions.SequentialIdsDistinct | src/main/java/modules/Transaction.java:27-28 | transactions created one after another never share an id, as long as the `int` counter stays at or below its largest value |
| Transactions.Sign | src/main/java/modules/Transaction.java:54 | a transaction is shown with "+" exactly when its type is DEPOSIT ignoring case, and with "-" otherwise |
| Transactions.TransactionFromString | src/main/java/modules/Transaction.java:81-92 | a line parses exactly when it has at least six fields and both amounts parse; the fields land in order |
| Transactions.SplitTransactionLine | src/main/java/modules/Transaction.java:69-76 | the saved line of a transaction with comma-free text fields and a nonempty timestamp splits into exactly its six fields |
| Transactions.TransactionToString | src/main/java/modules/Transaction.java:69-76 | the saved line starts with the transaction id followed by a comma |
| Transactions.TransactionRoundTrip | src/main/java/modules/Transaction.java:81-92 | reading back the saved line of such a transaction gives the same transaction |
| Transactions.EmptyTimestampFails | src/main/java/modules/Transaction.java:82-89 | a transaction with an empty timestamp cannot be read back: `split` drops the empty last field |
| TransactionStore.AddTransaction | src/main/java/services/TransactionManager.java:37-39 | adding appends exactly one entry at the end and keeps the earlier ones; the count grows by one |
| TransactionStore.ByAccount | src/main/java/services/TransactionManager.java:85-89 | the history of an account holds exactly the entries whose account matches ignoring case |
| TransactionStore.ByAccountAppend | src/main/java/services/TransactionManager.java:85-89 | the history keeps log order: a new entry goes last in its account's history and nowhere else |
| TransactionStore.Total | src/main/java/services/TransactionManager.java:49-57 | the total is zero when no entry matches both the account and the type, and is never negative when all amounts are non-negative |
| TransactionStore.TotalIsHistorySum | src/main/java/services/TransactionManager.java:49-57 | the total equals the sum of the amounts of that type within the account's history |
| TransactionStore.TotalAppend | src/main/java/services/TransactionManager.java:49-57 | a new entry adds its amount to the total exactly when it matches the account and the type |
| TransactionStore.TotalDeposits | src/main/java/services/TransactionManager.java:75-77 | total deposits are the sum of the DEPOSIT amounts in the account's history |
| TransactionStore.TotalWithdrawals | src/main/java/services/TransactionManager.java:65-67 | total withdrawals are the sum of the WITHDRAW amounts in the account's history |
| TransactionStore.NetChange | src/main/java/services/TransactionManager.java:116-118 | the net change is deposits minus withdrawals over the account's history |
| TransactionStore.SaveTransactions | src/main/java/services/TransactionManager.java:149-151 | one line per entry, in list order, line i being entry i's `toString`, and every storable entry reads back from its line |
| TransactionStore.ParseAll | src/main/java/services/TransactionManager.java:169-173 | the whole file parses exactly when every line does, and then the list holds one transaction per line, in order |
| TransactionStore.LoadTransactions | src/main/java/services/TransactionManager.java:163-179 | loading replaces the list with the parsed lines when all parse, and keeps the previous list when any line fails |
| TransactionStore.SaveThenLoadTransactions | src/main/java/services/TransactionManager.java:138-179 | saving then loading a log of storable entries restores it exactly, whatever the list held before |
| AccountStore.AddAccount | src/main/java/services/AccountManager.java:31-33 | adding puts the account under its number, replacing any account with that number, leaves the others as they were, and keeps every key equal to its account's number |
| AccountStore.FindAccount | src/main/java/services/AccountManager.java:41-43 | an account is found exactly when its key is present, and it is the stored one |
| AccountStore.FindIsCaseSensitive | src/main/java/services/AccountManager.java:41-43 | `ACC001` finds the account numbered ACC001; `acc001` finds nothing |
| AccountStore.TotalAccounts | src/main/java/services/AccountManager.java:80-82 | the account count is the number of distinct account numbers |
| AccountStore.TwoNewAccountsCount | src/main/java/services/AccountManager.java:31-33 | two accounts opened one after another and both added give a count of two (the counter still below the `int` maximum) |
| AccountStore.SumBalancesRemove | src/main/java/services/AccountManager.java:50-55 | the bank total is any one account's balance plus the total of the rest, so it does not depend on iteration order |
| AccountStore.SumBalancesPut | src/main/java/services/AccountManager.java:50-55 | replacing or adding one account changes the total by exactly the difference in that balance |
| AccountStore.TotalBalance | src/main/java/services/AccountManager.java:50-55 | summing the balances one by one gives the bank total |
| AccountStore.TotalAfterAdd | src/main/java/services/AccountManager.java:31-33 | adding a new account adds its balance to the total; re-adding a number swaps the old balance for the new one |
| AccountStore.SaveAccounts | src/main/java/services/AccountManager.java:99-102 | for an order listing every stored number once: exactly one line per stored account, line i being the `toString` of the i-th account in that order, and every storable account reads back from its line as its reloaded form |
| AccountStore.ParseEach | src/main/java/services/AccountManager.java:122-124 | every line is parsed on its own, in order |
| AccountStore.Insert | src/main/java/services/AccountManager.java:120-131 | loading completes exactly when no line fails, never loses a key already put, and keeps every key equal to its account's number |
| AccountStore.InsertAppend | src/main/java/services/AccountManager.java:122-126 | a further line is ignored after a failure; a failing line stops the load; a skipped line changes nothing; a parsed line is put under its number, the later one winning |
| AccountStore.InsertStopsAtFailure | src/main/java/services/AccountManager.java:122-131 | at the first failing line the load stops, keeping exactly the accounts put from the lines before it |
| AccountStore.InsertLastWins | src/main/java/services/AccountManager.java:122-126 | with no throwing line, the insert pass leaves under each number the last account parsed for it, and keeps every other entry it started from |
| AccountStore.LoadKeepsLastParsed | src/main/java/services/AccountManager.java:120-131 | after the clear, the stored numbers are exactly those parsed before the first throwing line, each holding its last parsed account |
| AccountStore.LoadAccounts | src/main/java/services/AccountManager.java:114-132 | loading starts from an empty map and completes exactly when no line throws; a number is stored exactly when some line before the first throwing one parsed to an account with that number, and it holds the last such account (last write wins) |
| AccountStore.SaveThenLoadAccounts | src/main/java/services/AccountManager.java:87-132 | saving then loading accounts whose text fields hold no comma gives back every account under the same number, each in its reloaded form, for any iteration order |
| Teller.ProcessAndRecord | src/main/java/utils/Functions.java:73-130 | a missing account changes nothing; a transaction is recorded exactly when `processTransaction` returns true, and then only that account changes, the counter advances by exactly one, and the single appended record carries the account, type, amount, the account's new balance, the given timestamp and the id built from the advanced counter; a `false` return is `Declined` and the overdraft exception is `OverdraftThrown`, each exactly in its case, and neither records anything |
| Teller.Transfer | src/main/java/utils/Functions.java:156-213 | each outcome holds exactly in its case: source missing, target missing, numbers equal ignoring case, amount not positive, Savings withdrawal refused, overdraft exception from a Checking withdrawal, or completed; the restore branch is never reached, since a positive deposit always succeeds; nothing changes unless the transfer completes |
| Teller.DistinctKeys | src/main/java/utils/Functions.java:174-177 | accounts whose numbers differ ignoring case are stored under different keys |
| Teller.TransferEffect | src/main/java/utils/Functions.java:189-200 | a completed transfer debits the source and credits the target by the amount and leaves every other account as it was; it appends exactly a WITHDRAW record for the source, then a DEPOSIT record for the target; each record carries its account's new balance and the given timestamp; their ids come from the next two counter values |
| Teller.SumAfterTwoPuts | src/main/java/services/AccountManager.java:50-55 | rewriting two different accounts changes the bank total by the two balance differences |
| Teller.TransferConserves | src/main/java/utils/Functions.java:189-209 | every transfer outcome leaves the two balances' sum and the bank total unchanged |
| Scenarios.SavingsScenario | src/test/java/modules/SavingsAccountTest.java:22-71 | from 1000.00 with the Regular 500.00 minimum, 400.00 and 500.00 can be withdrawn, while 500.01 and 600.01 are refused with `false` and the balance unchanged; a 50.00 deposit gives 1050.00 |
| Scenarios.CheckingScenario | src/test/java/modules/CheckingAccountTest.java:22-48 | from 500.00, withdrawing 1200.00 gives -700.00 and 1500.00 gives exactly -1000.00, after which one cent more raises the overdraft exception; from -200.00 a deposit of 300.00 gives 100.00 |
| Scenarios.TransferScenario | src/test/java/modules/TransferTest.java:61-82 | a 100.00 transfer from a Savings account at 1000.00 to a Checking account at 50.00 leaves 900.00 and 150.00 and records two transactions |
| Scenarios.TotalsScenario | src/test/java/services/TransactionManagerTest.java:13-56 | with three entries on one account and one on another, the account's deposits total 1050.00, its withdrawals 200.00 and its net change 850.00, with four entries in all |

## Left out

- Console input and output, menus, prompts, input validation (`ValidationUtils`), and every message text printed or carried by an exception.
- File system access: file paths, existence checks and directory creation. Saving and loading are modelled as functions between the in-memory state and the list of lines.
- Java serialization (`Serializable`, `serialVersionUID`), which the text format replaced.
- `synchronized`, and the concurrency simulation that runs several deposits and withdrawals in threads. The model is sequential.
- The wall clock. A transaction's timestamp is a parameter, not `LocalDateTime.now()`.
- `double` arithmetic. Amounts are exact hundredths, so rounding error and amounts with finer precision are not represented.
- `Double.toString` for magnitudes of 10^7 and above, which switches to scientific notation ("1.0E7"). `Decimal.Format` always writes the plain form. `Decimal.Parse` accepts only an optional sign, digits, and an optional "." with up to two digits; the other forms `parseDouble` accepts (exponents, surrounding whitespace, "NaN", "Infinity", more fraction digits) are out.
- `equalsIgnoreCase` outside ASCII. Only the letters a–z and A–Z are folded.
- The iteration order of `HashMap`, which is unspecified. It is an input to `AccountStore.SaveAccounts`.
- `displayAccountDetails` and `displayCustomerDetails` text, `viewAllAccounts` and `viewTransactionsByAccount` layout (including newest-first printing) and `getAccountType` labels. Only the fee side effect of the Checking display is modelled.
- `Functions.handleCreateAccount`, `handleViewHistory` and `initializeData`. These are console glue that calls the modelled constructors and operations.
- The confirmation prompt of `handleProcessTransaction`. A declined confirmation changes nothing, which is the same as not calling `Teller.ProcessAndRecord`.
- `Functions.handleTransfer` reads the target number after it has found the source. `Teller.Transfer` takes both numbers at once, which leads to the same outcomes.
- Customers.SequentialIdsDistinct: the counter is an unbounded natural in the model. The Java counter is an `int`, so after 2^31 - 1 creations `++` wraps to a negative value and ids eventually repeat; the lemma is stated only while the counter is at or below `Decimal.JavaIntMax`.
- Accounts.SequentialNumbersDistinct: the same `int` wrap-around of the account counter is not modelled; the lemma is stated only up to `Decimal.JavaIntMax`.
- Transactions.SequentialIdsDistinct: the same `int` wrap-around of the transaction counter is not modelled; the lemma is stated only up to `Decimal.JavaIntMax`.
- Accounts.InterestEarned: states the interest as an exact real number; the `double` rounding of `balance * interestRate / 100` is not modelled.
- Customers.MinimumBalanceRequirement: only the Premium figure is modelled, because only `PremiumCustomer` defines it.
