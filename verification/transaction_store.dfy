/**
 * The transaction store: an append-only list with case-insensitive
 * filtering by account, per-type totals, and the conversion between the
 * list and the lines of the transactions file.
 */
module TransactionStore {
  import opened Results
  import opened Text
  import opened Decimal
  import opened Transactions

  /** `addTransaction`: appends at the end and leaves the earlier entries as they were. */
  function AddTransaction(s: seq<Transaction>, t: Transaction): (r: seq<Transaction>)
    ensures |r| == |s| + 1
    ensures r[..|s|] == s && r[|s|] == t
  {
    s + [t]
  }

  predicate OnAccount(t: Transaction, number: string)
  {
    EqualsIgnoreCase(t.account, number)
  }

  predicate Matches(t: Transaction, number: string, kind: string)
  {
    OnAccount(t, number) && EqualsIgnoreCase(t.kind, kind)
  }

  /** `getTransactionsByAccount`: the entries whose account matches ignoring case, in insertion order. */
  function ByAccount(s: seq<Transaction>, number: string): (r: seq<Transaction>)
    ensures |r| <= |s|
    ensures forall i :: 0 <= i < |r| ==> r[i] in s && OnAccount(r[i], number)
    ensures forall i :: 0 <= i < |s| && OnAccount(s[i], number) ==> s[i] in r
  {
    if |s| == 0 then []
    else (if OnAccount(s[0], number) then [s[0]] else []) + ByAccount(s[1..], number)
  }

  /** A new entry lands at the end of its account's history and nowhere else. */
  lemma {:induction false} ByAccountAppend(s: seq<Transaction>, t: Transaction, number: string)
    ensures ByAccount(s + [t], number) == ByAccount(s, number) + (if OnAccount(t, number) then [t] else [])
    decreases |s|
  {
    if |s| == 0 {
      assert s + [t] == [t];
    } else {
      assert (s + [t])[1..] == s[1..] + [t];
      ByAccountAppend(s[1..], t, number);
    }
  }

  /** `calculateTotal`: the sum of amounts over entries matching both account and type, ignoring case. */
  function Total(s: seq<Transaction>, number: string, kind: string): (r: Hundredths)
    ensures (forall i :: 0 <= i < |s| ==> !Matches(s[i], number, kind)) ==> r == 0
    ensures (forall i :: 0 <= i < |s| ==> s[i].amount >= 0) ==> r >= 0
  {
    if |s| == 0 then 0
    else (if Matches(s[0], number, kind) then s[0].amount else 0) + Total(s[1..], number, kind)
  }

  /** The entries of the given type, ignoring case. */
  function OfKind(s: seq<Transaction>, kind: string): seq<Transaction>
  {
    if |s| == 0 then []
    else (if EqualsIgnoreCase(s[0].kind, kind) then [s[0]] else []) + OfKind(s[1..], kind)
  }

  function SumAmounts(s: seq<Transaction>): Hundredths
  {
    if |s| == 0 then 0 else s[0].amount + SumAmounts(s[1..])
  }

  /** The per-type total is the sum of the amounts in the account's history that have that type. */
  lemma {:induction false} TotalIsHistorySum(s: seq<Transaction>, number: string, kind: string)
    ensures Total(s, number, kind) == SumAmounts(OfKind(ByAccount(s, number), kind))
    decreases |s|
  {
    if |s| > 0 {
      TotalIsHistorySum(s[1..], number, kind);
      var h := ByAccount(s[1..], number);
      var k := OfKind(h, kind);
      if OnAccount(s[0], number) {
        var g := [s[0]] + h;
        assert ByAccount(s, number) == g;
        assert g[0] == s[0] && g[1..] == h;
        if EqualsIgnoreCase(s[0].kind, kind) {
          assert OfKind(g, kind) == [s[0]] + k;
          assert ([s[0]] + k)[1..] == k;
        } else {
          assert OfKind(g, kind) == k;
        }
      } else {
        assert ByAccount(s, number) == h;
      }
    }
  }

  /** Appending a matching entry raises the total by its amount; any other entry leaves it unchanged. */
  lemma {:induction false} TotalAppend(s: seq<Transaction>, t: Transaction, number: string, kind: string)
    ensures Total(s + [t], number, kind) == Total(s, number, kind) + (if Matches(t, number, kind) then t.amount else 0)
    decreases |s|
  {
    if |s| == 0 {
      assert s + [t] == [t];
      assert [t][1..] == [];
    } else {
      assert (s + [t])[1..] == s[1..] + [t];
      TotalAppend(s[1..], t, number, kind);
    }
  }

  /** `calculateTotalDeposit`. */
  function TotalDeposits(s: seq<Transaction>, number: string): (r: Hundredths)
    ensures r == SumAmounts(OfKind(ByAccount(s, number), "DEPOSIT"))
  {
    TotalIsHistorySum(s, number, "DEPOSIT");
    Total(s, number, "DEPOSIT")
  }

  /** `calculateTotalWithdraw`. */
  function TotalWithdrawals(s: seq<Transaction>, number: string): (r: Hundredths)
    ensures r == SumAmounts(OfKind(ByAccount(s, number), "WITHDRAW"))
  {
    TotalIsHistorySum(s, number, "WITHDRAW");
    Total(s, number, "WITHDRAW")
  }

  /** The net change the history view reports: deposits minus withdrawals. */
  function NetChange(s: seq<Transaction>, number: string): (r: Hundredths)
    ensures r == SumAmounts(OfKind(ByAccount(s, number), "DEPOSIT")) - SumAmounts(OfKind(ByAccount(s, number), "WITHDRAW"))
  {
    TotalDeposits(s, number) - TotalWithdrawals(s, number)
  }

  /** The save half of `saveTransaction`: one line per entry, in list order, each reading back as its entry. */
  function SaveTransactions(s: seq<Transaction>): (lines: seq<string>)
    ensures |lines| == |s|
    ensures forall i :: 0 <= i < |s| ==> lines[i] == TransactionToString(s[i])
    ensures forall i :: 0 <= i < |s| && StorableTransaction(s[i]) ==> TransactionFromString(lines[i]) == Some(s[i])
  {
    var lines := seq(|s|, i requires 0 <= i < |s| => TransactionToString(s[i]));
    LinesRoundTrip(s, lines);
    lines
  }

  lemma LinesRoundTrip(s: seq<Transaction>, lines: seq<string>)
    requires |lines| == |s|
    requires forall i :: 0 <= i < |s| ==> lines[i] == TransactionToString(s[i])
    ensures forall i :: 0 <= i < |s| && StorableTransaction(s[i]) ==> TransactionFromString(lines[i]) == Some(s[i])
  {
    forall i | 0 <= i < |s| && StorableTransaction(s[i])
      ensures TransactionFromString(lines[i]) == Some(s[i])
    {
      TransactionRoundTrip(s[i]);
    }
  }

  /** Every line parsed, or `None` as soon as one line throws. */
  function ParseAll(lines: seq<string>): (r: Option<seq<Transaction>>)
    ensures r.Some? <==> forall i :: 0 <= i < |lines| ==> TransactionFromString(lines[i]).Some?
    ensures r.Some? ==> |r.value| == |lines|
    ensures r.Some? ==> forall i :: 0 <= i < |lines| ==> TransactionFromString(lines[i]) == Some(r.value[i])
  {
    if |lines| == 0 then Some([])
    else match (TransactionFromString(lines[0]), ParseAll(lines[1..]))
      case (Some(t), Some(rest)) => Some([t] + rest)
      case _ => None
  }

  /**
   * The load half of `loadTransaction`: the list is replaced only when
   * every line parses; on the first failure the exception is caught and the
   * previous list stays.
   */
  function LoadTransactions(lines: seq<string>, previous: seq<Transaction>): (r: seq<Transaction>)
    ensures (forall i :: 0 <= i < |lines| ==> TransactionFromString(lines[i]).Some?) ==>
      |r| == |lines| && forall i :: 0 <= i < |lines| ==> TransactionFromString(lines[i]) == Some(r[i])
    ensures (exists i :: 0 <= i < |lines| && TransactionFromString(lines[i]).None?) ==> r == previous
  {
    match ParseAll(lines)
    case Some(loaded) => loaded
    case None => previous
  }

  /** Saving a list of storable entries and loading the lines back gives the same list, whatever was loaded before. */
  lemma SaveThenLoadTransactions(s: seq<Transaction>, previous: seq<Transaction>)
    requires forall i :: 0 <= i < |s| ==> StorableTransaction(s[i])
    ensures LoadTransactions(SaveTransactions(s), previous) == s
  {
    var lines := SaveTransactions(s);
    assert forall i :: 0 <= i < |lines| ==> TransactionFromString(lines[i]) == Some(s[i]);
    var loaded := ParseAll(lines);
    assert loaded.Some? && |loaded.value| == |s|;
    assert forall i :: 0 <= i < |s| ==> loaded.value[i] == s[i];
  }
}
