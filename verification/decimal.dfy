/**
 * Decimal text for the numbers the ledger writes and reads: `String.format`
 * zero padding ("%03d", "%04d") for generated ids, and the plain form of
 * `Double.toString` / `Double.parseDouble` for amounts, which this model
 * keeps as whole hundredths.
 */
module Decimal {
  import opened Results

  /** An amount (or a percentage rate) with two fractional digits, counted in hundredths. */
  type Hundredths = int

  /**
   * The largest Java `int`, the type of the static id counters. A counter
   * that passes it wraps to a negative value; the distinct-id lemmas are
   * stated only up to it.
   */
  const JavaIntMax: int := 0x7fff_ffff

  predicate IsDigit(c: char) {
    '0' <= c <= '9'
  }

  predicate AllDigits(s: string) {
    forall i :: 0 <= i < |s| ==> IsDigit(s[i])
  }

  function DigitChar(d: nat): (c: char)
    requires d < 10
    ensures IsDigit(c)
  {
    ('0' as int + d) as char
  }

  function DigitValue(c: char): (d: nat)
    requires IsDigit(c)
    ensures d < 10 && DigitChar(d) == c
  {
    c as int - '0' as int
  }

  /** The number a string of decimal digits denotes (0 for the empty string). */
  function ValueOf(s: string): nat
    requires AllDigits(s)
  {
    if |s| == 0 then 0 else 10 * ValueOf(s[..|s| - 1]) + DigitValue(s[|s| - 1])
  }

  /** The shortest decimal spelling of `n`, as `Integer.toString` writes it. */
  function DigitsOf(n: nat): (s: string)
    ensures |s| >= 1 && AllDigits(s)
    ensures ValueOf(s) == n
    ensures |s| > 1 ==> s[0] != '0'
  {
    if n < 10 then [DigitChar(n)]
    else
      var s := DigitsOf(n / 10) + [DigitChar(n % 10)];
      assert s[..|s| - 1] == DigitsOf(n / 10);
      s
  }

  function Zeros(k: nat): (s: string)
    ensures |s| == k && AllDigits(s)
    ensures forall i :: 0 <= i < k ==> s[i] == '0'
  {
    if k == 0 then "" else Zeros(k - 1) + "0"
  }

  /** Leading zeros do not change the value of a digit string. */
  lemma {:induction false} ValueOfZerosPrefix(k: nat, s: string)
    requires AllDigits(s)
    ensures AllDigits(Zeros(k) + s)
    ensures ValueOf(Zeros(k) + s) == ValueOf(s)
    decreases |s|
  {
    var z := Zeros(k);
    if |s| == 0 {
      assert z + s == z;
      ZerosValue(k);
    } else {
      var t := z + s;
      assert t[..|t| - 1] == z + s[..|s| - 1];
      assert t[|t| - 1] == s[|s| - 1];
      ValueOfZerosPrefix(k, s[..|s| - 1]);
    }
  }

  lemma {:induction false} ZerosValue(k: nat)
    ensures ValueOf(Zeros(k)) == 0
  {
    if k > 0 {
      var z := Zeros(k);
      assert z == Zeros(k - 1) + "0";
      assert z[..k - 1] == Zeros(k - 1);
      assert DigitValue(z[k - 1]) == 0;
      ZerosValue(k - 1);
      assert ValueOf(z) == 10 * ValueOf(Zeros(k - 1)) + DigitValue(z[k - 1]);
    }
  }

  /**
   * `String.format("%0<width>d", n)` for `n >= 0`: the digits of `n`
   * left-padded with zeros to at least `width` characters.
   */
  function ZeroPad(n: nat, width: nat): (s: string)
    ensures AllDigits(s)
    ensures |s| == if |DigitsOf(n)| < width then width else |DigitsOf(n)|
    ensures ValueOf(s) == n
  {
    var d := DigitsOf(n);
    var z := if |d| < width then width - |d| else 0;
    ValueOfZerosPrefix(z, d);
    Zeros(z) + d
  }

  /** Distinct counters give distinct padded ids. */
  lemma ZeroPadInjective(m: nat, n: nat, width: nat)
    requires m != n
    ensures ZeroPad(m, width) != ZeroPad(n, width)
  {
  }

  /** The one or two fractional digits `Double.toString` keeps for `f` hundredths. */
  function FractionText(f: nat): (s: string)
    requires f < 100
    ensures 1 <= |s| <= 2 && AllDigits(s)
  {
    if f % 10 == 0 then [DigitChar(f / 10)] else [DigitChar(f / 10), DigitChar(f % 10)]
  }

  /** The hundredths denoted by up to two fractional digits. */
  function FractionValue(s: string): nat
    requires |s| <= 2 && AllDigits(s)
  {
    if |s| == 0 then 0
    else if |s| == 1 then 10 * DigitValue(s[0])
    else 10 * DigitValue(s[0]) + DigitValue(s[1])
  }

  lemma FractionRoundTrip(f: nat)
    requires f < 100
    ensures FractionValue(FractionText(f)) == f
  {
  }

  /** The index of the first `c` in `s`, or `|s|` when there is none. */
  function IndexOf(s: string, c: char): (i: nat)
    ensures i <= |s|
    ensures forall j :: 0 <= j < i ==> s[j] != c
    ensures i < |s| ==> s[i] == c
  {
    if |s| == 0 then 0
    else if s[0] == c then 0
    else 1 + IndexOf(s[1..], c)
  }

  function Abs(x: int): nat {
    if x < 0 then -x else x
  }

  /** The unsigned text of `a` hundredths: the whole part, ".", and one or two fractional digits. */
  function Magnitude(a: nat): (s: string)
    ensures |s| >= 3 && IsDigit(s[0]) && IsDigit(s[|s| - 1])
  {
    DigitsOf(a / 100) + "." + FractionText(a % 100)
  }

  /**
   * `Double.toString` of an amount held in hundredths: an optional "-",
   * the whole part, ".", and one fractional digit, or two when the second
   * is not zero ("1000.0", "500.01", "-700.0", "3.5").
   */
  function Format(x: Hundredths): (s: string)
    ensures |s| >= 3
    ensures s[0] == '-' <==> x < 0
    ensures x >= 0 ==> IsDigit(s[0])
    ensures IsDigit(s[|s| - 1])
  {
    (if x < 0 then "-" else "") + Magnitude(Abs(x))
  }

  /** The text of an amount never holds a comma, so it can sit in a comma-separated line. */
  lemma FormatHasNoComma(x: Hundredths)
    ensures forall i :: 0 <= i < |Format(x)| ==> Format(x)[i] != ','
  {
    var a := Abs(x);
    var d := DigitsOf(a / 100);
    var f := FractionText(a % 100);
    assert Magnitude(a) == d + "." + f;
    assert forall i :: 0 <= i < |Magnitude(a)| ==> Magnitude(a)[i] == '.' || IsDigit(Magnitude(a)[i]);
  }

  /** Reads `digits[.digits]` with at most two fractional digits and at least one digit. */
  function ParseUnsigned(s: string): Option<nat>
  {
    var i := IndexOf(s, '.');
    var whole := s[..i];
    var fraction := if i < |s| then s[i + 1..] else "";
    if AllDigits(whole) && AllDigits(fraction) && |fraction| <= 2 && (|whole| > 0 || |fraction| > 0)
    then Some(100 * ValueOf(whole) + FractionValue(fraction))
    else None
  }

  /**
   * `Double.parseDouble` on decimal text with an optional sign; `None`
   * stands for the `NumberFormatException` it throws on anything else.
   */
  function Parse(s: string): (r: Option<Hundredths>)
    ensures r.Some? ==> |s| > 0
    ensures r.Some? && s[0] == '-' ==> r.value <= 0
    ensures r.Some? && s[0] != '-' ==> r.value >= 0
    ensures |s| > 0 && AllDigits(s) ==> r == Some(100 * ValueOf(s))
  {
    if |s| > 0 && (s[0] == '-' || s[0] == '+') then
      match ParseUnsigned(s[1..])
      case None => None
      case Some(v) =>
        var x: int := if s[0] == '-' then 0 - v as int else v as int;
        Some(x)
    else
      assert AllDigits(s) ==> IndexOf(s, '.') == |s| && s[..|s|] == s;
      match ParseUnsigned(s)
      case None => None
      case Some(v) => Some(v as int)
  }

  /** The unsigned part `Format` writes reads back as the magnitude. */
  lemma ParseMagnitude(a: nat)
    ensures ParseUnsigned(Magnitude(a)) == Some(a)
  {
    var d := DigitsOf(a / 100);
    var f := FractionText(a % 100);
    var body := Magnitude(a);
    var i := IndexOf(body, '.');
    assert body[|d|] == '.';
    assert i == |d|;
    assert body[..i] == d;
    assert body[i + 1..] == f;
    FractionRoundTrip(a % 100);
  }

  /** Reading back what `Format` wrote gives the same amount. */
  lemma ParseFormat(x: Hundredths)
    ensures Parse(Format(x)) == Some(x)
  {
    var a := Abs(x);
    var s := Format(x);
    ParseMagnitude(a);
    if x < 0 {
      assert s[1..] == Magnitude(a);
    } else {
      assert s == Magnitude(a);
    }
  }
}
