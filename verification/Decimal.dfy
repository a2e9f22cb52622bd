/** Decimal numerals: printing, reading, and why the canonical spelling is unique. */
module Decimal {
  import opened Basics

  predicate IsDigit(c: char) {
    '0' <= c <= '9'
  }

  predicate AllDigits(s: string) {
    forall i :: 0 <= i < |s| ==> IsDigit(s[i])
  }

  function DigitChar(d: nat): (c: char)
    requires d < 10
    ensures IsDigit(c) && DigitValue(c) == d
  {
    '0' + d as char
  }

  function DigitValue(c: char): (d: nat)
    requires IsDigit(c)
    ensures d < 10 && '0' + d as char == c
  {
    (c - '0') as nat
  }

  /** The number a digit string denotes. */
  function Value(s: string): nat
    requires AllDigits(s)
  {
    if s == [] then 0 else 10 * Value(s[..|s| - 1]) + DigitValue(s[|s| - 1])
  }

  /** A numeral without leading zeros. */
  predicate Canonical(s: string) {
    s != [] && AllDigits(s) && (|s| > 1 ==> s[0] != '0')
  }

  function Numeral(n: nat): string {
    if n < 10 then [DigitChar(n)] else Numeral(n / 10) + [DigitChar(n % 10)]
  }

  lemma {:induction false} NumeralDenotes(n: nat)
    ensures Canonical(Numeral(n)) && Value(Numeral(n)) == n
    ensures n > 0 ==> Numeral(n)[0] != '0'
  {
    if n >= 10 {
      NumeralDenotes(n / 10);
      var s := Numeral(n);
      assert s[..|s| - 1] == Numeral(n / 10);
    } else {
      assert Numeral(n)[..0] == [];
    }
  }

  lemma {:induction false} CanonicalPositive(s: string)
    requires s != [] && AllDigits(s) && s[0] != '0'
    ensures Value(s) > 0
  {
    if |s| > 1 {
      CanonicalPositive(s[..|s| - 1]);
    }
  }

  /** Equal value, equal canonical spelling. */
  lemma {:induction false} CanonicalIsNumeral(s: string)
    requires Canonical(s)
    ensures s == Numeral(Value(s))
  {
    var n := |s| - 1;
    if |s| == 1 {
      assert s == [s[0]];
      assert Value(s[..0]) == 0;
    } else {
      var front, d := Value(s[..n]), DigitValue(s[n]);
      CanonicalPositive(s[..n]);
      CanonicalIsNumeral(s[..n]);
      assert Value(s) == 10 * front + d >= 10;
      assert Value(s) / 10 == front && Value(s) % 10 == d;
      assert s == s[..n] + [s[n]];
    }
  }

  lemma NumeralInjective(m: nat, n: nat)
    requires Numeral(m) == Numeral(n)
    ensures m == n
  {
    NumeralDenotes(m);
    NumeralDenotes(n);
  }

  /** A leading zero does not change the value. */
  lemma {:induction false} LeadingZero(s: string)
    requires AllDigits(s)
    ensures AllDigits("0" + s) && Value("0" + s) == Value(s)
  {
    var z := "0" + s;
    if s == [] {
      assert z[..0] == [];
    } else {
      assert z[..|z| - 1] == "0" + s[..|s| - 1];
      LeadingZero(s[..|s| - 1]);
    }
  }

  /** Reading an unsigned 64-bit number: an optional plus sign, then digits, no overflow. */
  function ParseU64(s: string): Option<nat> {
    var body := if |s| > 1 && s[0] == '+' then s[1..] else s;
    if body != [] && AllDigits(body) && Value(body) < U64_LIMIT then Some(Value(body)) else None
  }

  /** A text is read as `n` exactly when it is digits denoting `n`, after at most one plus sign, and `n` fits 64 bits. */
  lemma ParseU64Accepts(s: string, n: nat)
    ensures ParseU64(s) == Some(n) <==>
              n < 18_446_744_073_709_551_616 && exists d :: (s == d || s == "+" + d) && d != [] && AllDigits(d) && Value(d) == n
  {
    var body := if |s| > 1 && s[0] == '+' then s[1..] else s;
    if body != s { assert s == "+" + body; }
    forall d | (s == d || s == "+" + d) && d != [] && AllDigits(d) ensures d == body {
      if s == d { assert IsDigit(s[0]); }
    }
  }

  lemma ParseU64Numeral(n: nat)
    requires n < U64_LIMIT
    ensures ParseU64(Numeral(n)) == Some(n)
  {
    NumeralDenotes(n);
  }
}
