/** Decimal texts: values, canonical form and the integer parsers the program relies on. */
module Decimal {
  import opened Common

  const U64_LIMIT: int := 0x1_0000_0000_0000_0000
  const I64_LIMIT: int := 0x8000_0000_0000_0000

  predicate IsDigit(c: char) {
    '0' <= c <= '9'
  }

  predicate AllDigits(s: string) {
    forall i :: 0 <= i < |s| ==> IsDigit(s[i])
  }

  function Digit(c: char): nat
    requires IsDigit(c)
  {
    c as nat - '0' as nat
  }

  function Value(s: string): nat
    requires AllDigits(s)
  {
    if s == [] then 0 else Value(s[..|s| - 1]) * 10 + Digit(s[|s| - 1])
  }

  function Pow10(k: nat): (p: nat)
    ensures p >= 1
  {
    if k == 0 then 1 else 10 * Pow10(k - 1)
  }

  function Zeros(k: nat): string {
    seq(k, _ => '0')
  }

  /** The canonical decimal text of a natural number. */
  function Text(n: nat): string {
    if n < 10 then [n as char + '0'] else Text(n / 10) + [(n % 10) as char + '0']
  }

  predicate Canonical(s: string) {
    s != [] && AllDigits(s) && (s[0] == '0' ==> |s| == 1)
  }

  lemma {:induction false} TextIsCanonical(n: nat)
    ensures Canonical(Text(n)) && Value(Text(n)) == n
    ensures Text(n)[0] == '0' ==> n == 0
  {
    if n < 10 {
      assert Text(n)[..0] == [];
      assert Value(Text(n)) == Value([]) * 10 + n;
    } else {
      TextIsCanonical(n / 10);
      assert Text(n)[..|Text(n)| - 1] == Text(n / 10);
    }
  }

  /** A canonical text is the text of its value, so canonical texts are unique. */
  lemma {:induction false} CanonicalIsText(s: string)
    requires Canonical(s)
    ensures Text(Value(s)) == s
    ensures s[0] != '0' ==> Value(s) > 0
  {
    var n := |s| - 1;
    assert s == s[..n] + [s[n]];
    if n == 0 {
      assert Value(s[..0]) == 0;
    } else {
      CanonicalIsText(s[..n]);
      assert Value(s) / 10 == Value(s[..n]) && Value(s) % 10 == Digit(s[n]);
    }
  }

  lemma ScaleByTen(x: nat, p: nat)
    ensures x * p * 10 == x * (10 * p)
  {
  }

  lemma {:induction false} ValueConcat(a: string, b: string)
    requires AllDigits(a) && AllDigits(b)
    ensures AllDigits(a + b) && Value(a + b) == Value(a) * Pow10(|b|) + Value(b)
  {
    if b == [] {
      assert a + b == a;
    } else {
      var m := |b| - 1;
      ValueConcat(a, b[..m]);
      assert (a + b)[..|a + b| - 1] == a + b[..m];
      assert (a + b)[|a + b| - 1] == b[m];
      ScaleByTen(Value(a), Pow10(m));
    }
  }

  lemma {:induction false} ValueBelowPow(s: string)
    requires AllDigits(s)
    ensures Value(s) < Pow10(|s|)
    ensures s != [] && s[0] != '0' ==> Pow10(|s| - 1) <= Value(s)
  {
    if s != [] {
      var n := |s| - 1;
      ValueBelowPow(s[..n]);
      if n == 0 {
        assert s[..n] == [];
      }
    }
  }

  lemma {:induction false} ZerosValue(k: nat)
    ensures AllDigits(Zeros(k)) && Value(Zeros(k)) == 0
  {
    if k > 0 {
      ZerosValue(k - 1);
      assert Zeros(k)[..k - 1] == Zeros(k - 1);
    }
  }

  /** `u64::from_str`: an optional plus sign, then at least one digit, below 2^64. */
  function ParseU64(s: string): Option<nat> {
    var digits := if s != [] && s[0] == '+' then s[1..] else s;
    if digits != [] && AllDigits(digits) && Value(digits) < U64_LIMIT then Some(Value(digits)) else None
  }

  /** `i64::from_str`: an optional sign, then at least one digit, in range. */
  function ParseI64(s: string): Option<int> {
    var negative := s != [] && s[0] == '-';
    var digits := if s != [] && (s[0] == '+' || s[0] == '-') then s[1..] else s;
    if digits == [] || !AllDigits(digits) then None
    else
      var size: int := Value(digits);
      var number: int := if negative then -size else size;
      if -I64_LIMIT <= number < I64_LIMIT then Some(number) else None
  }

  lemma ParseU64OfText(n: nat)
    requires n < U64_LIMIT
    ensures ParseU64(Text(n)) == Some(n)
  {
    TextIsCanonical(n);
  }
}
