/** Decimal rendering of integers, as Kotlin's `Int.toString()` and Python's `str(int)` give it. */
module Decimal {

  function DigitChar(d: nat): (c: char)
    requires d < 10
    ensures '0' <= c <= '9'
  {
    "0123456789"[d]
  }

  /** The decimal digits of `n`, most significant first, without leading zeros. */
  function NatToString(n: nat): (s: seq<char>)
    ensures |s| >= 1
    ensures forall i :: 0 <= i < |s| ==> '0' <= s[i] <= '9'
    ensures s[0] == '0' <==> n == 0
    decreases n
  {
    if n < 10 then [DigitChar(n)] else NatToString(n / 10) + [DigitChar(n % 10)]
  }

  /** A leading `-` for negative numbers, then the digits of the magnitude. */
  function IntToString(i: int): (s: seq<char>)
    ensures |s| >= 1
    ensures s[0] == '-' <==> i < 0
    decreases if i < 0 then 1 else 0
  {
    if i < 0 then "-" + IntToString(-i) else NatToString(i)
  }

  /** The value a string of decimal digits denotes. */
  function DigitsValue(s: seq<char>): nat
    requires forall i :: 0 <= i < |s| ==> '0' <= s[i] <= '9'
  {
    if s == [] then 0 else DigitsValue(s[..|s| - 1]) * 10 + (s[|s| - 1] - '0') as nat
  }

  /** Reading the digits back gives the number. */
  lemma {:induction false} NatToStringRoundTrip(n: nat)
    ensures DigitsValue(NatToString(n)) == n
    decreases n
  {
    if n >= 10 {
      NatToStringRoundTrip(n / 10);
      LastDigit(n);
      DigitCharValue(n % 10);
    } else {
      DigitCharValue(n);
    }
  }

  /** Above 9, the digits are those of `n / 10` followed by the digit `n % 10`. */
  lemma LastDigit(n: nat)
    requires n >= 10
    ensures var s := NatToString(n);
      s[..|s| - 1] == NatToString(n / 10) && s[|s| - 1] == DigitChar(n % 10)
  {
  }

  lemma DigitCharValue(d: nat)
    requires d < 10
    ensures (DigitChar(d) - '0') as nat == d
  {
  }

  lemma NatToStringInjective(m: nat, n: nat)
    requires NatToString(m) == NatToString(n)
    ensures m == n
  {
    NatToStringRoundTrip(m);
    NatToStringRoundTrip(n);
  }

  /** Different numbers render differently. */
  lemma IntToStringInjective(i: int, j: int)
    requires IntToString(i) == IntToString(j)
    ensures i == j
  {
    SignedRendering(i);
    SignedRendering(j);
    if i < 0 && j < 0 {
      NegativeInjective(-i, -j);
    } else if i >= 0 && j >= 0 {
      NatToStringInjective(i, j);
    }
  }

  lemma NegativeInjective(m: nat, n: nat)
    requires "-" + NatToString(m) == "-" + NatToString(n)
    ensures m == n
  {
    DropSign(m);
    DropSign(n);
    NatToStringInjective(m, n);
  }

  /** A negative number renders as `-` before its magnitude's digits, any other as its digits. */
  lemma SignedRendering(i: int)
    ensures i < 0 ==> IntToString(i) == "-" + NatToString(-i)
    ensures i >= 0 ==> IntToString(i) == NatToString(i)
  {
  }

  lemma DropSign(n: nat)
    ensures ("-" + NatToString(n))[1..] == NatToString(n)
  {
  }
}
