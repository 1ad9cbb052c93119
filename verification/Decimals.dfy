/** Decimal digit strings: their value, their scanning, and the arithmetic of powers of ten. */
module Decimals {

  predicate IsDigit(c: char) {
    '0' <= c <= '9'
  }

  predicate AllDigits(s: string) {
    forall i :: 0 <= i < |s| ==> IsDigit(s[i])
  }

  predicate AllZeros(s: string) {
    forall i :: 0 <= i < |s| ==> s[i] == '0'
  }

  function Digit(c: char): (d: nat)
    requires IsDigit(c)
  {
    (c - '0') as int
  }

  /** The number a digit string spells; the empty string spells zero. */
  function DecimalValue(s: string): nat
    requires AllDigits(s)
  {
    if s == "" then 0 else 10 * DecimalValue(s[..|s| - 1]) + Digit(s[|s| - 1])
  }

  /** The decimal text of v, digit by digit from the last one. */
  function Spelled(v: nat): (s: string)
    ensures s != ""
  {
    (if v < 10 then "" else Spelled(v / 10)) + ["0123456789"[v % 10]]
  }

  /** The text of v, written by dividing by ten, spells v. */
  lemma {:induction false} SpelledIsRead(v: nat)
    ensures AllDigits(Spelled(v)) && DecimalValue(Spelled(v)) == v
  {
    var s := Spelled(v);
    DigitOf(v % 10);
    if v >= 10 {
      SpelledIsRead(v / 10);
      assert s[..|s| - 1] == Spelled(v / 10);
    } else {
      assert s[..|s| - 1] == "";
    }
  }

  lemma DigitOf(d: nat)
    requires d < 10
    ensures IsDigit("0123456789"[d]) && Digit("0123456789"[d]) == d
  {
  }

  function Pow10(n: nat): nat {
    if n == 0 then 1 else 10 * Pow10(n - 1)
  }

  function Zeros(n: nat): (s: string)
    ensures |s| == n && AllZeros(s)
  {
    seq(n, i => '0')
  }

  /** strings.TrimLeft(s, "0"). */
  function TrimLeftZeros(s: string): string {
    if s != "" && s[0] == '0' then TrimLeftZeros(s[1..]) else s
  }

  lemma {:induction false} Pow10Positive(n: nat)
    ensures Pow10(n) >= 1
  {
    if n > 0 { Pow10Positive(n - 1); }
  }

  lemma {:induction false} Pow10Sum(a: nat, b: nat)
    ensures Pow10(a + b) == Pow10(a) * Pow10(b)
  {
    if a > 0 {
      Pow10Sum(a - 1, b);
      TimesTen(Pow10(a - 1), Pow10(b));
      Pow10Step(a);
      Pow10Step(a + b);
      hide Pow10;
    }
  }

  lemma Pow10Step(n: nat)
    requires n > 0
    ensures Pow10(n) == 10 * Pow10(n - 1)
  {
  }

  lemma TimesTen(a: nat, p: nat)
    ensures 10 * (a * p) == (10 * a) * p
  {
  }

  lemma Pow10Monotone(a: nat, b: nat)
    requires a <= b
    ensures Pow10(a) <= Pow10(b)
  {
    Pow10Sum(a, b - a);
    Pow10Positive(a);
    Pow10Positive(b - a);
    MulAtLeast(Pow10(a), Pow10(b - a));
  }

  lemma MulAtLeast(a: nat, b: nat)
    requires b >= 1
    ensures a * b >= a
  {
    assert a * b - a == a * (b - 1);
  }

  /** 10^19 does not fit a signed 64-bit integer. */
  lemma Pow10NineteenOverflows()
    ensures Pow10(19) > 0x8000_0000_0000_0000
  {
    assert Pow10(4) == 10000;
    Pow10Sum(4, 4);
    Pow10Sum(8, 8);
    assert Pow10(3) == 1000;
    Pow10Sum(16, 3);
  }

  lemma {:induction false} ValueOfConcat(a: string, b: string)
    requires AllDigits(a) && AllDigits(b)
    ensures AllDigits(a + b)
    ensures DecimalValue(a + b) == DecimalValue(a) * Pow10(|b|) + DecimalValue(b)
  {
    if b == "" {
      assert a + b == a;
    } else {
      var front, n := b[..|b| - 1], |b| - 1;
      ValueOfConcat(a, front);
      assert (a + b)[..|a + b| - 1] == a + front;
      assert (a + b)[|a + b| - 1] == b[n];
      assert DecimalValue(b) == 10 * DecimalValue(front) + Digit(b[n]);
      TenTimes(DecimalValue(a), Pow10(n));
    }
  }

  lemma TenTimes(a: nat, p: nat)
    ensures 10 * (a * p) == a * (10 * p)
  {
  }

  lemma {:induction false} ValueOfZeros(s: string)
    requires AllZeros(s)
    ensures AllDigits(s) && DecimalValue(s) == 0
  {
    if s != "" { ValueOfZeros(s[..|s| - 1]); }
  }

  lemma {:induction false} ZeroValueMeansZeros(s: string)
    requires AllDigits(s) && DecimalValue(s) == 0
    ensures AllZeros(s)
  {
    if s != "" { ZeroValueMeansZeros(s[..|s| - 1]); }
  }

  lemma {:induction false} ValueBelow(s: string)
    requires AllDigits(s)
    ensures DecimalValue(s) < Pow10(|s|)
  {
    if s != "" { ValueBelow(s[..|s| - 1]); }
  }

  /** Without a leading zero, a digit string of length n spells at least 10^(n-1). */
  lemma ValueAtLeast(s: string)
    requires AllDigits(s) && s != "" && s[0] != '0'
    ensures DecimalValue(s) >= Pow10(|s| - 1) >= 1
  {
    var head, tail := s[..1], s[1..];
    assert s == head + tail;
    ValueOfConcat(head, tail);
    assert head[..0] == "";
    assert DecimalValue(head) == Digit(s[0]) >= 1;
    Pow10Positive(|tail|);
    MulAtLeast(Pow10(|tail|), DecimalValue(head));
  }

  lemma {:induction false} TrimLeftZerosKeepsValue(s: string)
    requires AllDigits(s)
    ensures AllDigits(TrimLeftZeros(s)) && |TrimLeftZeros(s)| <= |s|
    ensures DecimalValue(TrimLeftZeros(s)) == DecimalValue(s)
    ensures TrimLeftZeros(s) != "" ==> TrimLeftZeros(s)[0] != '0'
  {
    if s != "" && s[0] == '0' {
      TrimLeftZerosKeepsValue(s[1..]);
      assert s == s[..1] + s[1..];
      ValueOfConcat(s[..1], s[1..]);
      ValueOfZeros(s[..1]);
    }
  }

  lemma {:induction false} TrimLeftZerosEmpty(s: string)
    ensures TrimLeftZeros(s) == "" <==> AllZeros(s)
  {
    if s != "" && s[0] == '0' {
      TrimLeftZerosEmpty(s[1..]);
      assert forall i :: 1 <= i < |s| ==> s[i] == s[1..][i - 1];
    }
  }
}
