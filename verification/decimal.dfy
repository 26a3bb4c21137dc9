/**
 * Decimal rendering of an item amount, as std::to_string produces it for a
 * non-negative int: the shortest digit string, most significant digit first.
 */
module Decimal {

  /** The character of one decimal digit. */
  function DigitChar(d: nat): (c: char)
    requires d < 10
    ensures '0' <= c <= '9'
  {
    ('0' as int + d) as char
  }

  /** std::to_string(n) for n >= 0. */
  function Digits(n: nat): (r: string)
    ensures |r| >= 1
    ensures forall k :: 0 <= k < |r| ==> '0' <= r[k] <= '9'
  {
    if n < 10 then [DigitChar(n)] else Digits(n / 10) + [DigitChar(n % 10)]
  }

  /** The number a digit string denotes (the reading direction of Digits). */
  function Value(s: string): nat
  {
    if s == [] then 0
    else
      var c := s[|s| - 1];
      Value(s[..|s| - 1]) * 10 + (if '0' <= c <= '9' then c as int - '0' as int else 0)
  }

  /** 10^k. */
  function Pow10(k: nat): (p: nat)
    ensures p >= 1
  {
    if k == 0 then 1 else 10 * Pow10(k - 1)
  }

  /** The digit string reads back as the number it was made from. */
  lemma {:induction false} DigitsRoundTrip(n: nat)
    ensures Value(Digits(n)) == n
  {
    if n >= 10 {
      DigitsRoundTrip(n / 10);
      var d := Digits(n);
      assert d[..|d| - 1] == Digits(n / 10);
    }
  }

  /** No leading zero: only the number 0 is written starting with '0'. */
  lemma {:induction false} DigitsNoLeadingZero(n: nat)
    ensures Digits(n)[0] == '0' <==> n == 0
  {
    if n >= 10 {
      DigitsNoLeadingZero(n / 10);
    }
  }

  /** A number fits in k >= 1 digits exactly when it is below 10^k. */
  lemma {:induction false} DigitsLength(n: nat, k: nat)
    requires k >= 1
    ensures |Digits(n)| <= k <==> n < Pow10(k)
  {
    if n < 10 {
      assert Pow10(k) == 10 * Pow10(k - 1);
    } else if k == 1 {
      assert Pow10(1) == 10;
    } else {
      DigitsLength(n / 10, k - 1);
      assert Pow10(k) == 10 * Pow10(k - 1);
    }
  }

  /** A positive number of r digits lies in [10^(r-1), 10^r). */
  lemma DigitsRange(n: nat)
    requires n > 0
    ensures Pow10(|Digits(n)| - 1) <= n < Pow10(|Digits(n)|)
  {
    DigitsLength(n, |Digits(n)|);
    if |Digits(n)| > 1 {
      DigitsLength(n, |Digits(n)| - 1);
    }
  }

  /** The lengths the HUD cares about: one digit below 10, two below 100, at least three from 100 on. */
  lemma DigitsWidth(n: nat)
    ensures n < 10 ==> |Digits(n)| == 1
    ensures 10 <= n < 100 ==> |Digits(n)| == 2
    ensures n >= 100 ==> |Digits(n)| >= 3
  {
    DigitsLength(n, 1);
    DigitsLength(n, 2);
    assert Pow10(2) == 100 by {
      assert Pow10(1) == 10;
    }
  }
}
