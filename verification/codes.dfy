/** One-time verification codes. The source draws
    `Math.floor(100000 + Math.random() * 900000)` and stores its decimal
    `toString()`; here the random draw is the offset parameter and the
    string is produced by `Decimal`. */
module Codes {
  import opened Text

  /** What `Math.floor(Math.random() * 900000)` can produce. */
  type CodeOffset = x: int | 0 <= x < 900000

  function Pow10(k: nat): (p: nat)
    ensures p >= 1
  {
    if k == 0 then 1 else 10 * Pow10(k - 1)
  }

  function DigitChar(d: nat): (c: char)
    requires d < 10
    ensures IsDigit(c)
  {
    "0123456789"[d]
  }

  function DigitValue(c: char): (d: nat)
    requires IsDigit(c)
    ensures d < 10
  {
    c as int - '0' as int
  }

  predicate AllDigits(s: string) {
    forall i :: 0 <= i < |s| ==> IsDigit(s[i])
  }

  /** `Number.prototype.toString()` of a non-negative integer. */
  function Decimal(n: nat): (s: string)
    ensures |s| >= 1
    ensures AllDigits(s)
  {
    if n < 10 then [DigitChar(n)] else Decimal(n / 10) + [DigitChar(n % 10)]
  }

  /** The number a digit string denotes (most significant digit first). */
  function ValueOf(s: string): (n: nat)
    requires AllDigits(s)
    ensures n < Pow10(|s|)
  {
    if |s| == 0 then 0
    else ValueOf(s[..|s| - 1]) * 10 + DigitValue(s[|s| - 1])
  }

  lemma DigitRoundTrip(d: nat)
    requires d < 10
    ensures DigitValue(DigitChar(d)) == d
  {
  }

  /** Reading back the decimal string of `n` gives `n`. */
  lemma {:induction false} DecimalRoundTrip(n: nat)
    ensures ValueOf(Decimal(n)) == n
  {
    DigitRoundTrip(n % 10);
    if n >= 10 {
      var s := Decimal(n);
      assert s[..|s| - 1] == Decimal(n / 10);
      DecimalRoundTrip(n / 10);
    }
  }

  /** Distinct numbers have distinct decimal strings, so the source's string
      comparison of codes is comparison of the numbers. */
  lemma DecimalInjective(a: nat, b: nat)
    requires Decimal(a) == Decimal(b)
    ensures a == b
  {
    DecimalRoundTrip(a);
    DecimalRoundTrip(b);
  }

  /** A number with `k` decimal digits is written with exactly `k` characters. */
  lemma {:induction false} DecimalLength(n: nat, k: nat)
    requires 1 <= k && Pow10(k - 1) <= n < Pow10(k)
    ensures |Decimal(n)| == k
  {
    if k > 1 {
      assert Pow10(k - 1) == 10 * Pow10(k - 2);
      assert Pow10(k) == 10 * Pow10(k - 1);
      assert Pow10(k - 2) <= n / 10 < Pow10(k - 1);
      DecimalLength(n / 10, k - 1);
    }
  }

  /** The code string for a random draw: six digits, no leading zero, and
      reading it back gives `100000 + r`, so it lies in 100000..999999. */
  function NewCode(r: CodeOffset): (code: string)
    ensures |code| == 6 && AllDigits(code)
    ensures code[0] != '0'
    ensures ValueOf(code) == 100000 + r
    ensures 100000 <= ValueOf(code) <= 999999
  {
    var n := 100000 + r;
    assert Pow10(5) == 100000 && Pow10(6) == 1000000;
    DecimalLength(n, 6);
    DecimalRoundTrip(n);
    LeadingDigitNonZero(Decimal(n));
    Decimal(n)
  }

  /** A digit string that starts with '0' denotes less than 10^(length-1). */
  lemma {:induction false} LeadingDigitNonZero(s: string)
    requires |s| >= 1 && AllDigits(s)
    requires ValueOf(s) >= Pow10(|s| - 1)
    ensures s[0] != '0'
  {
    if s[0] == '0' {
      ZeroLedBound(s);
    }
  }

  lemma {:induction false} ZeroLedBound(s: string)
    requires |s| >= 1 && AllDigits(s) && s[0] == '0'
    ensures ValueOf(s) < Pow10(|s| - 1)
  {
    if |s| > 1 {
      var p := s[..|s| - 1];
      assert p[0] == '0';
      ZeroLedBound(p);
      assert ValueOf(s) <= (Pow10(|p| - 1) - 1) * 10 + 9;
    }
  }
}
