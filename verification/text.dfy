/**
 * The java.lang.String behaviour the ledger relies on: `split(",")`, joining
 * fields with ",", and `equalsIgnoreCase`.
 */
module Text {

  /** True when `s` holds no comma, so that it survives a join-then-split. */
  predicate CommaFree(s: string) {
    forall i :: 0 <= i < |s| ==> s[i] != ','
  }

  /** Every comma-separated piece of `s`, empty pieces included. */
  function SplitAll(s: string): (r: seq<string>)
    ensures |r| >= 1
    ensures forall i :: 0 <= i < |r| ==> CommaFree(r[i])
  {
    if |s| == 0 then [""]
    else if s[0] == ',' then [""] + SplitAll(s[1..])
    else
      var rest := SplitAll(s[1..]);
      [[s[0]] + rest[0]] + rest[1..]
  }

  /** Drops the empty strings at the end of `fs`. */
  function DropTrailingEmpty(fs: seq<string>): (r: seq<string>)
    ensures |r| <= |fs| && r == fs[..|r|]
    ensures |r| > 0 ==> r[|r| - 1] != ""
    ensures forall i :: |r| <= i < |fs| ==> fs[i] == ""
  {
    if |fs| == 0 then []
    else if fs[|fs| - 1] == "" then DropTrailingEmpty(fs[..|fs| - 1])
    else fs
  }

  /**
   * Java's `s.split(",")`: a string without a comma is returned whole;
   * otherwise the pieces are returned with trailing empty pieces removed.
   */
  function Split(s: string): (r: seq<string>)
    ensures forall i :: 0 <= i < |r| ==> CommaFree(r[i])
    ensures CommaFree(s) ==> r == [s]
    ensures !CommaFree(s) && |r| > 0 ==> r[|r| - 1] != ""
  {
    if CommaFree(s) then [s] else DropTrailingEmpty(SplitAll(s))
  }

  /** The fields joined with "," between neighbours, as the `toString` methods do. */
  function Join(fs: seq<string>): (r: string)
    requires |fs| >= 1
    ensures |fs| >= 2 ==> !CommaFree(r)
    ensures |fs[0]| <= |r| && r[..|fs[0]|] == fs[0]
    ensures |fs| >= 2 ==> |fs[0]| < |r| && r[|fs[0]|] == ','
  {
    if |fs| == 1 then fs[0]
    else
      var r := fs[0] + "," + Join(fs[1..]);
      assert r[|fs[0]|] == ',';
      r
  }

  /** A comma-free prefix glues onto the first piece of what follows it. */
  lemma {:induction false} SplitAllPrefix(w: string, t: string)
    requires CommaFree(w)
    ensures SplitAll(w + t) == [w + SplitAll(t)[0]] + SplitAll(t)[1..]
    decreases |w|
  {
    if |w| == 0 {
      var r := SplitAll(t);
      assert w + t == t;
      assert w + r[0] == r[0];
      assert r == [r[0]] + r[1..];
    } else {
      assert (w + t)[0] == w[0];
      assert (w + t)[1..] == w[1..] + t;
      SplitAllPrefix(w[1..], t);
      assert [w[0]] + (w[1..] + SplitAll(t)[0]) == w + SplitAll(t)[0];
    }
  }

  /** Splitting a join of comma-free fields gives the fields back, empty ones included. */
  lemma {:induction false} SplitAllJoin(fs: seq<string>)
    requires |fs| >= 1
    requires forall i :: 0 <= i < |fs| ==> CommaFree(fs[i])
    ensures SplitAll(Join(fs)) == fs
    decreases |fs|
  {
    if |fs| == 1 {
      SplitAllPrefix(fs[0], "");
      assert fs[0] + "" == fs[0];
    } else {
      var rest := Join(fs[1..]);
      assert Join(fs) == fs[0] + ("," + rest);
      SplitAllPrefix(fs[0], "," + rest);
      assert ("," + rest)[0] == ',' && ("," + rest)[1..] == rest;
      assert SplitAll("," + rest) == [""] + SplitAll(rest);
      assert fs[0] + "" == fs[0];
      SplitAllJoin(fs[1..]);
      assert fs == [fs[0]] + fs[1..];
    }
  }

  /**
   * `split(",")` undoes `Join` when there are at least two fields, none
   * holds a comma and the last one is not empty (Java drops trailing empty
   * pieces, so an empty last field would be lost).
   */
  lemma SplitJoin(fs: seq<string>)
    requires |fs| >= 2
    requires forall i :: 0 <= i < |fs| ==> CommaFree(fs[i])
    requires fs[|fs| - 1] != ""
    ensures Split(Join(fs)) == fs
  {
    SplitAllJoin(fs);
  }

  /** ASCII upper-casing of one character. */
  function Upper(c: char): char
  {
    if 'a' <= c <= 'z' then (c as int - 32) as char else c
  }

  /** ASCII upper-casing of a whole string. */
  function UpperAll(s: string): (u: string)
    ensures |u| == |s|
    ensures forall i :: 0 <= i < |s| ==> u[i] == Upper(s[i])
  {
    seq(|s|, i requires 0 <= i < |s| => Upper(s[i]))
  }

  /**
   * Java's `equalsIgnoreCase`, for ASCII letters: the strings compare
   * character by character with case folded, which is the same as their
   * upper-cased forms being equal.
   */
  predicate EqualsIgnoreCase(s: string, t: string)
    ensures EqualsIgnoreCase(s, t) <==> UpperAll(s) == UpperAll(t)
  {
    |s| == |t| && forall i :: 0 <= i < |s| ==> Upper(s[i]) == Upper(t[i])
  }

  /** `equalsIgnoreCase` is an equivalence relation, and it is implied by equality. */
  lemma EqualsIgnoreCaseEquivalence(s: string, t: string, u: string)
    ensures EqualsIgnoreCase(s, s)
    ensures EqualsIgnoreCase(s, t) ==> EqualsIgnoreCase(t, s)
    ensures EqualsIgnoreCase(s, t) && EqualsIgnoreCase(t, u) ==> EqualsIgnoreCase(s, u)
  {
  }
}
