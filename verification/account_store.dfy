/**
 * The account store: a map from account number to account with
 * last-write-wins insertion, exact-key lookup, the total of balances, and
 * the conversion between the map and the lines of the accounts file.
 */
module AccountStore {
  import opened Results
  import opened Text
  import Decimal
  import opened Accounts

  /** Every account is stored under its own number, as `addAccount` and loading both arrange. */
  predicate KeyedByNumber(m: map<string, Account>)
  {
    forall k :: k in m ==> m[k].number == k
  }

  /** `addAccount`: maps the account's number to it, overwriting an account already stored there. */
  function AddAccount(m: map<string, Account>, a: Account): (r: map<string, Account>)
    ensures r.Keys == m.Keys + {a.number}
    ensures r[a.number] == a
    ensures forall k :: k in m && k != a.number ==> r[k] == m[k]
    ensures |r| == if a.number in m then |m| else |m| + 1
    ensures KeyedByNumber(m) ==> KeyedByNumber(r)
  {
    m[a.number := a]
  }

  /** `findAccount`: the account stored under exactly this key (case matters), or none. */
  function FindAccount(m: map<string, Account>, number: string): (r: Option<Account>)
    ensures r.Some? <==> number in m
    ensures r.Some? ==> r.value == m[number]
  {
    if number in m then Some(m[number]) else None
  }

  /** Looking up a lower-cased number misses an account stored under the upper-case one. */
  lemma FindIsCaseSensitive(a: Account)
    requires a.number == "ACC001"
    ensures FindAccount(AddAccount(map[], a), "ACC001") == Some(a)
    ensures FindAccount(AddAccount(map[], a), "acc001") == None
  {
    assert "acc001" != "ACC001" by {
      assert "acc001"[0] != "ACC001"[0];
    }
  }

  /** `getTotalAccounts`: the number of distinct keys. */
  function TotalAccounts(m: map<string, Account>): (r: nat)
    ensures r == |m.Keys|
  {
    |m|
  }

  /** Two accounts opened one after the other and added to an empty store make two accounts. */
  lemma TwoNewAccountsCount(counter: nat, first: Account, second: Account)
    requires first.number == AccountNumber(counter + 1)
    requires second.number == AccountNumber(counter + 2)
    requires counter + 2 <= Decimal.JavaIntMax
    ensures TotalAccounts(AddAccount(AddAccount(map[], first), second)) == 2
  {
    SequentialNumbersDistinct(counter, 1);
  }

  lemma RemoveOne(m: map<string, Account>, k: string)
    requires k in m
    ensures (m - {k}).Keys == m.Keys - {k}
    ensures |m - {k}| == |m| - 1
  {
    assert (m - {k}).Keys == m.Keys - {k};
  }

  /** The sum of the balances of all stored accounts, taken in no particular order. */
  ghost function SumBalances(m: map<string, Account>): int
    decreases |m|
  {
    if m.Keys == {} then 0
    else
      var k :| k in m;
      RemoveOne(m, k);
      m[k].balance + SumBalances(m - {k})
  }

  /** Any stored account can be taken out of the sum first. */
  lemma {:induction false} SumBalancesRemove(m: map<string, Account>, k: string)
    requires k in m
    ensures SumBalances(m) == m[k].balance + SumBalances(m - {k})
    decreases |m|
  {
    var j :| j in m && SumBalances(m) == m[j].balance + SumBalances(m - {j});
    if j != k {
      RemoveOne(m, j);
      RemoveOne(m, k);
      SumBalancesRemove(m - {j}, k);
      SumBalancesRemove(m - {k}, j);
      assert (m - {j}) - {k} == (m - {k}) - {j};
    }
  }

  /** Storing `a` under `k` adds its balance and takes away the balance of whatever it overwrote. */
  lemma SumBalancesPut(m: map<string, Account>, k: string, a: Account)
    ensures SumBalances(m[k := a]) == SumBalances(m) - (if k in m then m[k].balance else 0) + a.balance
  {
    var r := m[k := a];
    SumBalancesRemove(r, k);
    if k in m {
      SumBalancesRemove(m, k);
      assert r - {k} == m - {k};
    } else {
      assert r - {k} == m;
    }
  }

  /** `getTotalBalance`: the balances of all stored accounts added up. */
  method TotalBalance(m: map<string, Account>) returns (total: int)
    ensures total == SumBalances(m)
  {
    total := 0;
    var rest := m;
    while rest.Keys != {}
      invariant total + SumBalances(rest) == SumBalances(m)
      decreases |rest|
    {
      var k :| k in rest;
      SumBalancesRemove(rest, k);
      RemoveOne(rest, k);
      total := total + rest[k].balance;
      rest := rest - {k};
    }
  }

  /** Adding an account under a new key adds its balance to the total; overwriting replaces the old balance. */
  lemma TotalAfterAdd(m: map<string, Account>, a: Account)
    ensures a.number !in m ==> SumBalances(AddAccount(m, a)) == SumBalances(m) + a.balance
    ensures a.number in m ==> SumBalances(AddAccount(m, a)) == SumBalances(m) - m[a.number].balance + a.balance
  {
    SumBalancesPut(m, a.number, a);
  }

  /**
   * An iteration order of the map: every key exactly once. HashMap does
   * not specify its order, so the model takes it as an input.
   */
  ghost predicate IterationOrder(m: map<string, Account>, order: seq<string>)
  {
    && (forall i :: 0 <= i < |order| ==> order[i] in m)
    && (forall k :: k in m ==> k in order)
    && (forall i, j :: 0 <= i < j < |order| ==> order[i] != order[j])
  }

  /** The save half of `saveAccounts`: one line per stored account, in the given iteration order, each its `toString`. */
  function SaveAccounts(m: map<string, Account>, order: seq<string>): (lines: seq<string>)
    requires IterationOrder(m, order)
    ensures |lines| == |order| == |m|
    ensures forall i :: 0 <= i < |order| ==> lines[i] == AccountToString(m[order[i]])
    ensures forall i :: 0 <= i < |order| && StorableAccount(m[order[i]]) ==>
      AccountFromString(lines[i]) == Parsed(Loaded(m[order[i]]))
  {
    OrderLength(m, order);
    var lines := seq(|order|, i requires 0 <= i < |order| => AccountToString(m[order[i]]));
    forall i | 0 <= i < |order| && StorableAccount(m[order[i]])
      ensures AccountFromString(lines[i]) == Parsed(Loaded(m[order[i]]))
    {
      AccountRoundTrip(m[order[i]]);
    }
    lines
  }

  /** An iteration order lists every stored number exactly once, so it is as long as the map is large. */
  lemma {:induction false} OrderLength(m: map<string, Account>, order: seq<string>)
    requires IterationOrder(m, order)
    ensures |order| == |m|
    decreases |order|
  {
    if |order| == 0 {
      assert m.Keys == {};
    } else {
      var k := order[|order| - 1];
      var rest := order[..|order| - 1];
      RemoveOne(m, k);
      forall j | j in m - {k}
        ensures j in rest
      {
        var i :| 0 <= i < |order| && order[i] == j;
        assert i < |order| - 1;
      }
      OrderLength(m - {k}, rest);
    }
  }

  /** The map a load builds, and whether it ran to the end without an exception. */
  datatype Loading = Loading(accounts: map<string, Account>, completed: bool)

  /** `fromString` applied to every line, before any of them is inserted. */
  function ParseEach(lines: seq<string>): (rs: seq<LineResult>)
    ensures |rs| == |lines|
    ensures forall i :: 0 <= i < |lines| ==> rs[i] == AccountFromString(lines[i])
  {
    seq(|lines|, i requires 0 <= i < |lines| => AccountFromString(lines[i]))
  }

  /**
   * The insert pass of `loadAccounts`, starting from `m`: each parsed
   * account is put under its number, skipped lines are ignored, and the
   * first line that threw ends the pass with what was built so far.
   */
  function Insert(m: map<string, Account>, rs: seq<LineResult>): (r: Loading)
    ensures r.completed <==> forall i :: 0 <= i < |rs| ==> !rs[i].Failed?
    ensures m.Keys <= r.accounts.Keys
    ensures KeyedByNumber(m) ==> KeyedByNumber(r.accounts)
    decreases |rs|
  {
    if |rs| == 0 then Loading(m, true)
    else match rs[0]
      case Failed => Loading(m, false)
      case Skipped => Insert(m, rs[1..])
      case Parsed(a) => Insert(m[a.number := a], rs[1..])
  }

  /**
   * The reference reading of "last write wins": the account parsed last
   * among `rs` under number `n`, if any.
   */
  function LastParsed(rs: seq<LineResult>, n: string): (r: Option<Account>)
    ensures r.Some? ==> r.value.number == n && exists i :: 0 <= i < |rs| && rs[i] == Parsed(r.value)
    ensures r.None? <==> forall i :: 0 <= i < |rs| && rs[i].Parsed? ==> rs[i].value.number != n
    decreases |rs|
  {
    if |rs| == 0 then None
    else
      var x := rs[|rs| - 1];
      if x.Parsed? && x.value.number == n then Some(x.value)
      else
        var front := rs[..|rs| - 1];
        var r := LastParsed(front, n);
        assert forall i :: 0 <= i < |front| ==> front[i] == rs[i];
        r
  }

  /** The position of the first line that threw, or `|rs|` when none did. */
  function FirstFailure(rs: seq<LineResult>): (i: nat)
    ensures i <= |rs|
    ensures i < |rs| ==> rs[i].Failed?
    ensures forall j :: 0 <= j < i ==> !rs[j].Failed?
    decreases |rs|
  {
    if |rs| == 0 then 0
    else if rs[0].Failed? then 0
    else
      var i := 1 + FirstFailure(rs[1..]);
      assert forall j :: 1 <= j < i ==> rs[j] == rs[1..][j - 1];
      i
  }

  /** With no failing line, the pass over `rs` from `m` leaves under each number the last account parsed for it, or what `m` had. */
  lemma {:induction false} InsertLastWins(m: map<string, Account>, rs: seq<LineResult>)
    requires forall i :: 0 <= i < |rs| ==> !rs[i].Failed?
    ensures forall n :: n in Insert(m, rs).accounts <==> n in m || LastParsed(rs, n).Some?
    ensures forall n :: n in Insert(m, rs).accounts ==>
      Insert(m, rs).accounts[n] == if LastParsed(rs, n).Some? then LastParsed(rs, n).value else m[n]
    decreases |rs|
  {
    if |rs| > 0 {
      var front := rs[..|rs| - 1];
      var x := rs[|rs| - 1];
      assert rs == front + [x];
      InsertLastWins(m, front);
      InsertAppend(m, front, x);
      assert forall n :: !(x.Parsed? && x.value.number == n) ==> LastParsed(rs, n) == LastParsed(front, n);
    }
  }

  /** The parsed-line results a load acts on: every line before the first one that threw. */
  function LoadedPrefix(lines: seq<string>): (rs: seq<LineResult>)
    ensures forall i :: 0 <= i < |rs| ==> !rs[i].Failed?
  {
    var all := ParseEach(lines);
    all[..FirstFailure(all)]
  }

  /** Loading from an empty map keeps, under each number, the last account parsed for it before the first failing line. */
  lemma LoadKeepsLastParsed(lines: seq<string>)
    ensures var r := Insert(map[], ParseEach(lines)).accounts;
      && (forall n :: n in r <==> LastParsed(LoadedPrefix(lines), n).Some?)
      && (forall n :: n in r ==> r[n] == LastParsed(LoadedPrefix(lines), n).value)
  {
    var all := ParseEach(lines);
    var p := FirstFailure(all);
    if p < |all| {
      InsertStopsAtFailure(map[], all, p);
    } else {
      assert all[..p] == all;
    }
    InsertLastWins(map[], all[..p]);
  }

  /**
   * `loadAccounts`: the map is cleared first, then filled from the lines.
   * Each number ends up holding the account its last parsed line gave,
   * counting only the lines before the first one that threw.
   */
  function LoadAccounts(lines: seq<string>): (r: Loading)
    ensures KeyedByNumber(r.accounts)
    ensures r.completed <==> forall i :: 0 <= i < |lines| ==> !AccountFromString(lines[i]).Failed?
    ensures forall n :: n in r.accounts <==> LastParsed(LoadedPrefix(lines), n).Some?
    ensures forall n :: n in r.accounts ==> r.accounts[n] == LastParsed(LoadedPrefix(lines), n).value
    ensures r.completed ==> LoadedPrefix(lines) == ParseEach(lines)
  {
    LoadKeepsLastParsed(lines);
    Insert(map[], ParseEach(lines))
  }

  /**
   * One more line extends the pass: a parsed account overwrites its
   * number (last write wins), a skipped line changes nothing, and a failing
   * line stops the pass.
   */
  lemma {:induction false} InsertAppend(m: map<string, Account>, rs: seq<LineResult>, x: LineResult)
    ensures var before := Insert(m, rs);
      Insert(m, rs + [x]) ==
        if !before.completed then before
        else match x
          case Failed => Loading(before.accounts, false)
          case Skipped => before
          case Parsed(a) => Loading(before.accounts[a.number := a], true)
    decreases |rs|
  {
    if |rs| == 0 {
      assert rs + [x] == [x];
      assert [x][1..] == [];
    } else {
      assert (rs + [x])[0] == rs[0];
      assert (rs + [x])[1..] == rs[1..] + [x];
      match rs[0] {
        case Failed =>
        case Skipped => InsertAppend(m, rs[1..], x);
        case Parsed(a) => InsertAppend(m[a.number := a], rs[1..], x);
      }
    }
  }

  /**
   * A line that throws partway leaves the map holding what the earlier
   * lines put there, since the clear has already happened.
   */
  lemma {:induction false} InsertStopsAtFailure(m: map<string, Account>, rs: seq<LineResult>, i: nat)
    requires i < |rs| && rs[i].Failed?
    requires forall j :: 0 <= j < i ==> !rs[j].Failed?
    ensures Insert(m, rs) == Loading(Insert(m, rs[..i]).accounts, false)
    decreases i
  {
    if i == 0 {
      assert rs[..0] == [];
    } else {
      assert rs[..i][0] == rs[0];
      assert rs[..i][1..] == rs[1..][..i - 1];
      match rs[0] {
        case Skipped => InsertStopsAtFailure(m, rs[1..], i - 1);
        case Parsed(a) => InsertStopsAtFailure(m[a.number := a], rs[1..], i - 1);
      }
    }
  }

  /** The numbers of the parsed accounts among `rs`. */
  ghost function Numbers(rs: seq<LineResult>): set<string>
  {
    set i | 0 <= i < |rs| && rs[i].Parsed? :: rs[i].value.number
  }

  /** `b` with the stub-owned copy of `m[k]` put under every `k` in `ns`. */
  ghost function Overlay(b: map<string, Account>, m: map<string, Account>, ns: set<string>): map<string, Account>
    requires ns <= m.Keys
  {
    map k | k in b.Keys + ns :: if k in ns then Loaded(m[k]) else b[k]
  }

  lemma OverlayStep(b: map<string, Account>, m: map<string, Account>, ns: set<string>, n: string)
    requires ns <= m.Keys && n in m
    ensures Overlay(b[n := Loaded(m[n])], m, ns) == Overlay(b, m, ns + {n})
  {
    var x := Overlay(b[n := Loaded(m[n])], m, ns);
    var y := Overlay(b, m, ns + {n});
    assert x.Keys == y.Keys;
    forall k | k in x
      ensures x[k] == y[k]
    {
    }
  }

  /** Inserting stub-owned copies of accounts of `m` puts each one under its number over `b`. */
  lemma {:induction false} InsertSaved(m: map<string, Account>, b: map<string, Account>, rs: seq<LineResult>)
    requires forall i :: 0 <= i < |rs| ==>
      rs[i].Parsed? && rs[i].value.number in m && rs[i].value == Loaded(m[rs[i].value.number])
    ensures Numbers(rs) <= m.Keys
    ensures Insert(b, rs) == Loading(Overlay(b, m, Numbers(rs)), true)
    decreases |rs|
  {
    var ns := Numbers(rs);
    if |rs| == 0 {
      assert ns == {};
      assert b == Overlay(b, m, ns);
    } else {
      var a := rs[0].value;
      var rest := rs[1..];
      assert forall i :: 0 <= i < |rest| ==> rest[i] == rs[i + 1];
      InsertSaved(m, b[a.number := a], rest);
      assert ns == Numbers(rest) + {a.number} by {
        forall k | k in ns
          ensures k in Numbers(rest) + {a.number}
        {
          var i :| 0 <= i < |rs| && rs[i].Parsed? && rs[i].value.number == k;
          if i > 0 {
            assert rest[i - 1] == rs[i];
          }
        }
        forall k | k in Numbers(rest)
          ensures k in ns
        {
          var i :| 0 <= i < |rest| && rest[i].Parsed? && rest[i].value.number == k;
          assert rs[i + 1] == rest[i];
        }
      }
      OverlayStep(b, m, Numbers(rest), a.number);
    }
  }

  /** The line saved at position `i` parses back to the stub-owned copy of the account written there. */
  lemma SavedLineAt(m: map<string, Account>, order: seq<string>, i: nat)
    requires forall k :: k in m ==> StorableAccount(m[k])
    requires IterationOrder(m, order)
    requires i < |order|
    ensures ParseEach(SaveAccounts(m, order))[i] == Parsed(Loaded(m[order[i]]))
  {
    assert StorableAccount(m[order[i]]);
  }

  /** Inserting the stub-owned copies of the accounts, in an iteration order, rebuilds the map from empty. */
  lemma InsertInOrder(m: map<string, Account>, order: seq<string>, rs: seq<LineResult>)
    requires KeyedByNumber(m)
    requires IterationOrder(m, order)
    requires |rs| == |order|
    requires forall i :: 0 <= i < |rs| ==> rs[i] == Parsed(Loaded(m[order[i]]))
    ensures Insert(map[], rs) == Loading(map k | k in m :: Loaded(m[k]), true)
  {
    InsertSaved(m, map[], rs);
    forall k | k in m
      ensures k in Numbers(rs)
    {
      var i :| 0 <= i < |order| && order[i] == k;
      assert rs[i].Parsed? && rs[i].value.number == k;
    }
    assert Numbers(rs) == m.Keys;
    OverlayAll(m);
  }

  lemma OverlayAll(m: map<string, Account>)
    ensures Overlay(map[], m, m.Keys) == map k | k in m :: Loaded(m[k])
  {
    var x := Overlay(map[], m, m.Keys);
    var y := map k | k in m :: Loaded(m[k]);
    assert x.Keys == y.Keys;
    forall k | k in x
      ensures x[k] == y[k]
    {
    }
  }

  /**
   * Saving the store and loading the lines back rebuilds every account
   * under its number, each owned by a name-only Regular stub, whatever
   * order the map was written in.
   */
  lemma SaveThenLoadAccounts(m: map<string, Account>, order: seq<string>)
    requires KeyedByNumber(m)
    requires forall k :: k in m ==> StorableAccount(m[k])
    requires IterationOrder(m, order)
    ensures LoadAccounts(SaveAccounts(m, order)) == Loading(map k | k in m :: Loaded(m[k]), true)
  {
    var rs := ParseEach(SaveAccounts(m, order));
    forall i | 0 <= i < |rs|
      ensures rs[i] == Parsed(Loaded(m[order[i]]))
    {
      SavedLineAt(m, order, i);
    }
    InsertInOrder(m, order, rs);
  }
}
