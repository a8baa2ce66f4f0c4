/**
 * Transaction records: immutable, with ids "TXN0001", "TXN0002", ... drawn
 * from a counter, and a six-field comma-separated line format.
 */
module Transactions {
  import opened Results
  import opened Text
  import opened Decimal

  /** The type is kept as free text: the constructor does not validate it, nor the sign of the amount. */
  datatype Transaction = Transaction(
    id: string,
    account: string,
    kind: string,
    amount: Hundredths,
    balanceAfter: Hundredths,
    timestamp: string)

  /** A transaction paired with the transaction counter after its creation. */
  datatype Recorded = Recorded(transaction: Transaction, counter: nat)

  /** "TXN" followed by the counter value padded to four digits (`TXN%04d`). */
  function TransactionId(n: nat): string
  {
    "TXN" + ZeroPad(n, 4)
  }

  /**
   * The four-argument constructor: advances the counter by one and stores
   * the rest verbatim. The wall clock is an input: `timestamp` is the
   * `yyyy-MM-dd HH:mm:ss` text of the moment of creation.
   */
  function NewTransaction(counter: nat, account: string, kind: string, amount: Hundredths,
                          balanceAfter: Hundredths, timestamp: string): (r: Recorded)
    ensures r.counter == counter + 1
    ensures r.transaction.id == TransactionId(r.counter)
    ensures r.transaction.account == account && r.transaction.kind == kind
    ensures r.transaction.amount == amount && r.transaction.balanceAfter == balanceAfter
    ensures r.transaction.timestamp == timestamp
  {
    Recorded(Transaction(TransactionId(counter + 1), account, kind, amount, balanceAfter, timestamp), counter + 1)
  }

  /** Transactions created one after another never share an id. */
  lemma {:induction false} SequentialIdsDistinct(counter: nat, k: nat)
    requires k >= 1
    requires counter + 1 + k <= JavaIntMax
    ensures TransactionId(counter + 1) != TransactionId(counter + 1 + k)
  {
    var a := TransactionId(counter + 1);
    var b := TransactionId(counter + 1 + k);
    assert a[3..] == ZeroPad(counter + 1, 4);
    assert b[3..] == ZeroPad(counter + 1 + k, 4);
    ZeroPadInjective(counter + 1, counter + 1 + k, 4);
  }

  /** The sign shown before the amount: "+" for a deposit in any letter case, "-" for anything else. */
  function Sign(t: Transaction): (r: string)
    ensures r == "+" || r == "-"
    ensures r == "+" <==> EqualsIgnoreCase(t.kind, "DEPOSIT")
  {
    if EqualsIgnoreCase(t.kind, "DEPOSIT") then "+" else "-"
  }

  function TransactionFields(t: Transaction): (fs: seq<string>)
    ensures |fs| == 6
  {
    [t.id, t.account, t.kind, Format(t.amount), Format(t.balanceAfter), t.timestamp]
  }

  /** `toString`: id, account, type, amount, balance after, timestamp, comma-joined. */
  function TransactionToString(t: Transaction): (s: string)
    ensures |t.id| < |s| && s[..|t.id|] == t.id && s[|t.id|] == ','
  {
    Join(TransactionFields(t))
  }

  /**
   * `fromString`. There is no length check: a line with fewer than six
   * fields throws, as does an amount that does not parse. `None` is that
   * exception.
   */
  function TransactionFromString(line: string): (r: Option<Transaction>)
    ensures var p := Split(line);
      && (r.Some? <==> |p| >= 6 && Parse(p[3]).Some? && Parse(p[4]).Some?)
      && (r.Some? ==>
            && r.value.id == p[0] && r.value.account == p[1] && r.value.kind == p[2]
            && Parse(p[3]) == Some(r.value.amount) && Parse(p[4]) == Some(r.value.balanceAfter)
            && r.value.timestamp == p[5])
  {
    var p := Split(line);
    if |p| < 6 then None
    else match (Parse(p[3]), Parse(p[4]))
      case (Some(amount), Some(balanceAfter)) => Some(Transaction(p[0], p[1], p[2], amount, balanceAfter, p[5]))
      case _ => None
  }

  /**
   * The text fields hold no comma, and the timestamp, the last field, is
   * not empty (Java's split would drop it). A real timestamp such as
   * "2025-01-31 09:15:00" meets both.
   */
  predicate StorableTransaction(t: Transaction)
  {
    CommaFree(t.id) && CommaFree(t.account) && CommaFree(t.kind) && CommaFree(t.timestamp) && t.timestamp != ""
  }

  lemma SplitTransactionLine(t: Transaction)
    requires StorableTransaction(t)
    ensures Split(TransactionToString(t)) == TransactionFields(t)
  {
    var fs := TransactionFields(t);
    FormatHasNoComma(t.amount);
    FormatHasNoComma(t.balanceAfter);
    assert forall i :: 0 <= i < 6 ==> CommaFree(fs[i]);
    SplitJoin(fs);
  }

  /** Writing a transaction and reading the line back gives the same transaction. */
  lemma TransactionRoundTrip(t: Transaction)
    requires StorableTransaction(t)
    ensures TransactionFromString(TransactionToString(t)) == Some(t)
  {
    SplitTransactionLine(t);
    ParseFormat(t.amount);
    ParseFormat(t.balanceAfter);
  }

  /** A line whose timestamp is empty loses its last field to split and then fails to load. */
  lemma EmptyTimestampFails(t: Transaction)
    requires CommaFree(t.id) && CommaFree(t.account) && CommaFree(t.kind) && t.timestamp == ""
    ensures TransactionFromString(TransactionToString(t)).None?
  {
    var fs := TransactionFields(t);
    FormatHasNoComma(t.amount);
    FormatHasNoComma(t.balanceAfter);
    assert forall i :: 0 <= i < 6 ==> CommaFree(fs[i]);
    SplitAllJoin(fs);
    var line := TransactionToString(t);
    assert !CommaFree(line);
    assert |Split(line)| < 6;
  }
}
