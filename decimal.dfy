/** Decimal digit strings: the value they denote and the digits of a number. */
module Decimal {

  predicate IsDigit(c: char) {
    '0' <= c <= '9'
  }

  predicate AllDigits(s: string) {
    forall i :: 0 <= i < |s| ==> IsDigit(s[i])
  }

  function DigitValue(c: char): (d: nat)
    requires IsDigit(c)
    ensures d < 10
  {
    c as int - '0' as int
  }

  function DigitChar(d: nat): (c: char)
    requires d < 10
    ensures IsDigit(c) && DigitValue(c) == d
  {
    ('0' as int + d) as char
  }

  function Pow10(k: nat): (p: nat)
    ensures p >= 1
  {
    if k == 0 then 1 else 10 * Pow10(k - 1)
  }

  /** The number a digit string denotes (leading zeros allowed). */
  function ValueOf(s: string): nat
    requires AllDigits(s)
  {
    if s == [] then 0 else ValueOf(s[..|s| - 1]) * 10 + DigitValue(s[|s| - 1])
  }

  /** The shortest decimal representation of `n`, as JavaScript prints it. */
  function ToDecimal(n: nat): (s: string)
    ensures AllDigits(s) && |s| >= 1
    ensures ValueOf(s) == n
    ensures s[0] == '0' <==> s == "0"
    ensures s == "0" <==> n == 0
  {
    if n < 10 then [DigitChar(n)]
    else
      var s := ToDecimal(n / 10) + [DigitChar(n % 10)];
      assert s[..|s| - 1] == ToDecimal(n / 10);
      s
  }

  lemma {:induction false} ValueBound(s: string)
    requires AllDigits(s)
    ensures ValueOf(s) < Pow10(|s|)
  {
    if s != [] {
      ValueBound(s[..|s| - 1]);
    }
  }

  /** Splitting a digit string splits its value positionally. */
  lemma {:induction false} ValueAppend(a: string, b: string)
    requires AllDigits(a) && AllDigits(b)
    ensures AllDigits(a + b)
    ensures ValueOf(a + b) == ValueOf(a) * Pow10(|b|) + ValueOf(b)
  {
    if b == [] {
      assert a + b == a;
    } else {
      var ab := a + b;
      var b0 := b[..|b| - 1];
      assert ab[..|ab| - 1] == a + b0 && ab[|ab| - 1] == b[|b| - 1];
      ValueAppend(a, b0);
      ShiftDigit(ValueOf(a), Pow10(|b| - 1), ValueOf(b0), DigitValue(b[|b| - 1]));
    }
  }

  /** Appending one digit multiplies by ten and adds it, on both sides of the split. */
  lemma ShiftDigit(x: nat, p: nat, y: nat, d: nat)
    ensures (x * p + y) * 10 + d == x * (10 * p) + (y * 10 + d)
  {
    assert (x * p + y) * 10 == x * p * 10 + y * 10;
  }

  lemma MulMonotone(a: nat, b: nat, m: nat)
    requires a <= b
    ensures a * m <= b * m
  {
  }

  /** Euclidean division is unique: a quotient and a remainder below `m` are `x / m` and `x % m`. */
  lemma ModUnique(x: nat, q: nat, m: nat, r: nat)
    requires m > 0 && r < m && x == q * m + r
    ensures x % m == r && x / m == q
  {
    var q0, r0 := x / m, x % m;
    assert x == q0 * m + r0;
    if q0 < q {
      MulMonotone(q0 + 1, q, m);
      assert false;
    } else if q < q0 {
      MulMonotone(q + 1, q0, m);
      assert false;
    }
  }

  /** The last `k` digits of a digit string denote its value modulo 10^k. */
  lemma SuffixValue(s: string, k: nat)
    requires AllDigits(s) && k <= |s|
    ensures AllDigits(s[|s| - k..])
    ensures ValueOf(s[|s| - k..]) == ValueOf(s) % Pow10(k)
  {
    var a, b := s[..|s| - k], s[|s| - k..];
    assert a + b == s;
    ValueAppend(a, b);
    ValueBound(b);
    ModUnique(ValueOf(s), ValueOf(a), Pow10(k), ValueOf(b));
  }

  /** Leading zeros do not change the value. */
  lemma {:induction false} ZerosValue(z: string)
    requires forall i :: 0 <= i < |z| ==> z[i] == '0'
    ensures AllDigits(z) && ValueOf(z) == 0
  {
    if z != [] {
      ZerosValue(z[..|z| - 1]);
    }
  }

  /** Digit strings of one length denote one value each. */
  lemma {:induction false} ValueInjective(a: string, b: string)
    requires AllDigits(a) && AllDigits(b) && |a| == |b|
    requires ValueOf(a) == ValueOf(b)
    ensures a == b
  {
    if a != [] {
      var n := |a| - 1;
      var a0, b0 := a[..n], b[..n];
      assert AllDigits(a0) && AllDigits(b0);
      var da, db := DigitValue(a[n]), DigitValue(b[n]);
      assert ValueOf(a) == ValueOf(a0) * 10 + da;
      assert ValueOf(b) == ValueOf(b0) * 10 + db;
      ModUnique(ValueOf(a), ValueOf(a0), 10, da);
      ModUnique(ValueOf(a), ValueOf(b0), 10, db);
      assert da == db && ValueOf(a0) == ValueOf(b0);
      assert a[n] == b[n];
      ValueInjective(a0, b0);
      assert a == a0 + [a[n]] && b == b0 + [b[n]];
    }
  }
}
