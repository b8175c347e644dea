/** Decimal numerals without leading zeros. */
module Numerals {
  function Decimal(n: nat): string {
    if n < 10 then ["0123456789"[n]] else Decimal(n / 10) + ["0123456789"[n % 10]]
  }

  lemma DigitInjective(i: nat, j: nat)
    requires i < 10 && j < 10 && "0123456789"[i] == "0123456789"[j]
    ensures i == j
  {
  }

  lemma {:induction false} DecimalInjective(n: nat, m: nat)
    requires Decimal(n) == Decimal(m)
    ensures n == m
    decreases n
  {
    var a, b := Decimal(n), Decimal(m);
    DecimalNonEmpty(n);
    DecimalNonEmpty(m);
    assert a[|a| - 1] == b[|b| - 1];
    DigitInjective(n % 10, m % 10);
    if n < 10 {
      if m >= 10 { DecimalNonEmpty(m / 10); }
    } else {
      DecimalNonEmpty(n / 10);
      assert a[..|a| - 1] == Decimal(n / 10);
      if m >= 10 {
        assert b[..|b| - 1] == Decimal(m / 10);
        DecimalInjective(n / 10, m / 10);
      }
    }
  }

  lemma DecimalNonEmpty(n: nat)
    ensures |Decimal(n)| > 0 && Decimal(n)[|Decimal(n)| - 1] == "0123456789"[n % 10]
  {
  }

  function DigitValue(c: char): int {
    c as int - '0' as int
  }

  predicate IsDigit(c: char) {
    '0' <= c <= '9'
  }

  /** Number of digits at the front. */
  function Digits(s: string): (k: nat)
    ensures k <= |s| && forall i :: 0 <= i < k ==> IsDigit(s[i])
    ensures k < |s| ==> !IsDigit(s[k])
  {
    if s == "" || !IsDigit(s[0]) then 0 else 1 + Digits(s[1..])
  }

  /** The number a digit string stands for in the given base. */
  function ValueOf(base: nat, s: string): int {
    if s == "" then 0 else base * ValueOf(base, s[..|s| - 1]) + DigitValue(s[|s| - 1])
  }

  lemma {:induction false} DecimalReads(n: nat)
    ensures ValueOf(10, Decimal(n)) == n
    ensures forall i :: 0 <= i < |Decimal(n)| ==> IsDigit(Decimal(n)[i])
    ensures n > 0 ==> Decimal(n)[0] != '0'
  {
    var d := ["0123456789"[n % 10]];
    assert d[0] == '0' + (n % 10) as char;
    if n < 10 {
      assert Decimal(n) == d && d[..0] == "";
    } else {
      DecimalReads(n / 10);
      assert Decimal(n)[..|Decimal(n)| - 1] == Decimal(n / 10);
    }
  }

  lemma {:induction false} DecimalLengthBound(n: nat)
    ensures |Decimal(n)| <= n / 2 + 1
  {
    if n >= 10 {
      DecimalLengthBound(n / 10);
    }
  }

  lemma {:induction false} DecimalLengthGrows(n: nat, m: nat)
    requires n <= m
    ensures |Decimal(n)| <= |Decimal(m)|
    decreases m
  {
    if m >= 10 && n >= 10 {
      DecimalLengthGrows(n / 10, m / 10);
    }
  }
}
