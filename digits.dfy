/** Zero-padded decimal fields, as strftime writes `%Y`, `%m`, `%d`, `%H`, `%M`, `%S` and `%f`. */
module Digits {

  function Pow10(n: nat): (r: nat)
    ensures r >= 1
  {
    if n == 0 then 1 else 10 * Pow10(n - 1)
  }

  predicate IsDigit(c: char)
  {
    '0' <= c <= '9'
  }

  predicate AllDigits(s: string)
  {
    forall i :: 0 <= i < |s| ==> IsDigit(s[i])
  }

  function DigitChar(d: nat): (c: char)
    requires d < 10
    ensures IsDigit(c)
  {
    ('0' as int + d) as char
  }

  function DigitValue(c: char): (d: nat)
    requires IsDigit(c)
    ensures d < 10
  {
    c as int - '0' as int
  }

  /** `n` written in exactly `w` decimal digits, with leading zeros. */
  function Pad(n: nat, w: nat): (s: string)
    requires n < Pow10(w)
    ensures |s| == w && AllDigits(s)
  {
    if w == 0 then ""
    else Pad(n / 10, w - 1) + [DigitChar(n % 10)]
  }

  /** The number a string of decimal digits denotes. */
  function DecimalValue(s: string): nat
    requires AllDigits(s)
  {
    if s == [] then 0
    else DecimalValue(s[..|s| - 1]) * 10 + DigitValue(s[|s| - 1])
  }

  /** Reading a padded field back gives the number that was written. */
  lemma {:induction false} PadRoundTrip(n: nat, w: nat)
    requires n < Pow10(w)
    ensures DecimalValue(Pad(n, w)) == n
  {
    if w > 0 {
      PadRoundTrip(n / 10, w - 1);
      var s := Pad(n, w);
      assert s[..|s| - 1] == Pad(n / 10, w - 1);
    }
  }

  /** `n` without its last `b` decimal digits. */
  function DropDigits(n: nat, b: nat): nat
  {
    if b == 0 then n else DropDigits(n / 10, b - 1)
  }

  lemma {:induction false} DropDigitsBound(n: nat, a: nat, b: nat)
    requires n < Pow10(a + b)
    ensures DropDigits(n, b) < Pow10(a)
  {
    if b > 0 {
      DropDigitsBound(n / 10, a, b - 1);
    }
  }

  /** The first `a` of `a + b` padded digits are the number without its last `b` digits. */
  lemma {:induction false} PadPrefix(n: nat, a: nat, b: nat)
    requires n < Pow10(a + b)
    ensures DropDigits(n, b) < Pow10(a)
    ensures Pad(n, a + b)[..a] == Pad(DropDigits(n, b), a)
  {
    DropDigitsBound(n, a, b);
    if b > 0 {
      PadPrefix(n / 10, a, b - 1);
      assert Pad(n, a + b)[..a] == Pad(n / 10, a + b - 1)[..a];
    }
  }
}
