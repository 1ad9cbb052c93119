/** internal/adapter/numeric_json.go: decoding JSON decimals as exact integers.

    The grammar of section 6 of RFC 8259 is given twice: as the texts `Render` produces, and as
    the scanner `ScanNumber` that stands for json.Valid on a text that starts like a number. */
module NumericJson {
  import opened Common
  import opened Decimals

  // ----- The grammar

  datatype Exponent = Exponent(marker: char, sign: string, digits: string)

  datatype JsonNumber = JsonNumber(minus: bool, whole: string, fraction: Option<string>, exponent: Option<Exponent>)

  predicate DigitsAtLeastOne(s: string) {
    s != "" && AllDigits(s)
  }

  predicate WellFormedExponent(e: Option<Exponent>) {
    e.Some? ==> e.value.marker in {'e', 'E'} && e.value.sign in {"", "+", "-"} && DigitsAtLeastOne(e.value.digits)
  }

  predicate WellFormed(n: JsonNumber) {
    && DigitsAtLeastOne(n.whole)
    && (n.whole[0] == '0' ==> n.whole == "0")
    && (n.fraction.Some? ==> DigitsAtLeastOne(n.fraction.value))
    && WellFormedExponent(n.exponent)
  }

  function RenderFraction(f: Option<string>): string {
    if f.Some? then "." + f.value else ""
  }

  function RenderExponent(e: Option<Exponent>): string {
    if e.Some? then [e.value.marker] + e.value.sign + e.value.digits else ""
  }

  function RenderTail(n: JsonNumber): string {
    RenderFraction(n.fraction) + RenderExponent(n.exponent)
  }

  function RenderUnsigned(n: JsonNumber): string {
    n.whole + RenderTail(n)
  }

  function Render(n: JsonNumber): string {
    if n.minus then "-" + RenderUnsigned(n) else RenderUnsigned(n)
  }

  // ----- The value of a number, without fractions

  function FractionDigits(n: JsonNumber): string {
    if n.fraction.Some? then n.fraction.value else ""
  }

  /** The mantissa read as one digit string, the point removed. */
  function Coefficient(n: JsonNumber): nat
    requires WellFormed(n)
  {
    ValueOfConcatIsDefined(n.whole, FractionDigits(n));
    DecimalValue(n.whole + FractionDigits(n))
  }

  lemma ValueOfConcatIsDefined(a: string, b: string)
    requires AllDigits(a) && AllDigits(b)
    ensures AllDigits(a + b)
  {
  }

  function ExponentValue(n: JsonNumber): int
    requires WellFormed(n)
  {
    if n.exponent.None? then 0
    else if n.exponent.value.sign == "-" then 0 - DecimalValue(n.exponent.value.digits)
    else DecimalValue(n.exponent.value.digits)
  }

  function Signed(minus: bool, magnitude: nat): int {
    if minus then 0 - magnitude else magnitude
  }

  /** v is exactly coefficient * 10^scale with the given sign. */
  predicate ExactlyScaled(minus: bool, coefficient: nat, scale: int, v: int) {
    if scale >= 0 then v == Signed(minus, coefficient * Pow10(scale))
    else v * Pow10(-scale) == Signed(minus, coefficient)
  }

  /** The number n denotes exactly the integer v. */
  predicate Denotes(n: JsonNumber, v: int)
    requires WellFormed(n)
  {
    ExactlyScaled(n.minus, Coefficient(n), ExponentValue(n) - |FractionDigits(n)|, v)
  }

  // ----- json.Valid on a text that starts with '-' or a digit

  /** The length of the longest prefix made of digits. */
  function DigitRun(s: string): (k: nat)
    ensures k <= |s| && AllDigits(s[..k]) && (k < |s| ==> !IsDigit(s[k]))
  {
    if s != "" && IsDigit(s[0]) then
      var k := 1 + DigitRun(s[1..]);
      assert forall i :: 1 <= i < k ==> s[i] == s[1..][i - 1];
      k
    else 0
  }

  lemma {:induction false} DigitRunOf(d: string, rest: string)
    requires AllDigits(d) && (rest != "" ==> !IsDigit(rest[0]))
    ensures DigitRun(d + rest) == |d|
  {
    if d == "" {
      assert d + rest == rest;
    } else {
      DigitRunOf(d[1..], rest);
      assert (d + rest)[1..] == d[1..] + rest;
    }
  }

  function ScanWhole(s: string): (k: nat)
    ensures k <= |s|
    ensures k > 0 ==> DigitsAtLeastOne(s[..k]) && (s[0] == '0' ==> s[..k] == "0")
  {
    if s != "" && s[0] == '0' then 1 else DigitRun(s)
  }

  function ScanExponent(s: string): Option<Option<Exponent>> {
    if s == "" then Some(None)
    else if s[0] != 'e' && s[0] != 'E' then None
    else
      var sign := if |s| > 1 && (s[1] == '+' || s[1] == '-') then s[1..2] else "";
      var digits := s[1 + |sign|..];
      if DigitsAtLeastOne(digits) then Some(Some(Exponent(s[0], sign, digits))) else None
  }

  /** The optional fraction at the start of s, and what follows it. */
  function ScanFraction(s: string): Option<(Option<string>, string)> {
    if s == "" || s[0] != '.' then Some((None, s))
    else
      var f := DigitRun(s[1..]);
      if f == 0 then None else Some((Some(s[1..][..f]), s[1..][f..]))
  }

  function ScanUnsigned(minus: bool, s: string): Option<JsonNumber> {
    var k := ScanWhole(s);
    var fraction := ScanFraction(s[k..]);
    if k == 0 || fraction.None? then None
    else
      var exponent := ScanExponent(fraction.value.1);
      if exponent.None? then None
      else Some(JsonNumber(minus, s[..k], fraction.value.0, exponent.value))
  }

  function ScanNumber(s: string): Option<JsonNumber> {
    if s != "" && s[0] == '-' then ScanUnsigned(true, s[1..]) else ScanUnsigned(false, s)
  }

  predicate JsonValidNumber(s: string) {
    ScanNumber(s).Some?
  }

  lemma ScanExponentRoundTrip(s: string)
    requires ScanExponent(s).Some?
    ensures RenderExponent(ScanExponent(s).value) == s && WellFormedExponent(ScanExponent(s).value)
  {
    if s != "" {
      var sign := ScanExponent(s).value.value.sign;
      assert sign != "" ==> sign == [s[1]];
    }
  }

  lemma ScanExponentComplete(e: Option<Exponent>)
    requires WellFormedExponent(e)
    ensures ScanExponent(RenderExponent(e)) == Some(e)
  {
    if e.Some? {
      var s := RenderExponent(e);
      assert s[1..] == e.value.sign + e.value.digits;
      if e.value.sign == "" {
        assert s[1..] == e.value.digits;
        assert IsDigit(s[1]);
      } else {
        assert s[1..2] == e.value.sign;
        assert s[2..] == e.value.digits;
      }
    }
  }

  lemma ScanFractionRoundTrip(s: string)
    requires ScanFraction(s).Some?
    ensures RenderFraction(ScanFraction(s).value.0) + ScanFraction(s).value.1 == s
    ensures ScanFraction(s).value.0.Some? ==> DigitsAtLeastOne(ScanFraction(s).value.0.value)
  {
    if s != "" && s[0] == '.' {
      assert s == "." + s[1..];
    }
  }

  lemma ScanFractionComplete(f: Option<string>, rest: string)
    requires f.Some? ==> DigitsAtLeastOne(f.value)
    requires rest != "" ==> !IsDigit(rest[0]) && rest[0] != '.'
    ensures ScanFraction(RenderFraction(f) + rest) == Some((f, rest))
  {
    var s := RenderFraction(f) + rest;
    if f.Some? {
      assert s[1..] == f.value + rest;
      DigitRunOf(f.value, rest);
    } else {
      assert s == rest;
    }
  }

  lemma ScanUnsignedSound(minus: bool, s: string)
    requires ScanUnsigned(minus, s).Some?
    ensures var n := ScanUnsigned(minus, s).value;
            WellFormed(n) && n.minus == minus && RenderUnsigned(n) == s
  {
    var k, n := ScanWhole(s), ScanUnsigned(minus, s).value;
    var whole, tail := s[..k], s[k..];
    var rest := ScanFraction(tail).value.1;
    assert RenderTail(n) == tail by {
      ScanFractionRoundTrip(tail);
      ScanExponentRoundTrip(rest);
    }
    assert WellFormed(n) by {
      ScanFractionRoundTrip(tail);
      ScanExponentRoundTrip(rest);
      assert whole[0] == s[0];
    }
    assert s == whole + tail;
  }

  lemma ScanUnsignedComplete(n: JsonNumber)
    requires WellFormed(n)
    ensures RenderUnsigned(n) != "" && IsDigit(RenderUnsigned(n)[0])
    ensures ScanUnsigned(n.minus, RenderUnsigned(n)) == Some(n)
  {
    var s, k, tail := RenderUnsigned(n), |n.whole|, RenderTail(n);
    ScanFractionComplete(n.fraction, RenderExponent(n.exponent));
    ScanExponentComplete(n.exponent);
    DigitRunOf(n.whole, tail);
    assert s[0] == n.whole[0];
    assert ScanWhole(s) == k;
    assert s[..k] == n.whole;
    assert s[k..] == tail;
  }

  /** What the scanner accepts is a number of the grammar, taken apart without loss. */
  lemma ScanSound(s: string)
    requires ScanNumber(s).Some?
    ensures WellFormed(ScanNumber(s).value) && Render(ScanNumber(s).value) == s
  {
    if s != "" && s[0] == '-' {
      ScanUnsignedSound(true, s[1..]);
      assert s == "-" + s[1..];
    } else {
      ScanUnsignedSound(false, s);
    }
  }

  /** The scanner accepts every number of the grammar and finds its parts. */
  lemma ScanComplete(n: JsonNumber)
    requires WellFormed(n)
    ensures ScanNumber(Render(n)) == Some(n)
  {
    ScanUnsignedComplete(n);
    if n.minus {
      assert Render(n)[1..] == RenderUnsigned(n);
    }
  }

  // ----- strings and strconv

  predicate IsJsonSpace(c: char) {
    c == ' ' || c == '\t' || c == '\r' || c == '\n'
  }

  predicate AllJsonSpace(s: string) {
    forall i :: 0 <= i < |s| ==> IsJsonSpace(s[i])
  }

  /** strings.Trim(s, " \t\r\n"). */
  function TrimSpaces(s: string): string {
    if s != "" && IsJsonSpace(s[0]) then TrimSpaces(s[1..])
    else if s != "" && IsJsonSpace(s[|s| - 1]) then TrimSpaces(s[..|s| - 1])
    else s
  }

  /** strings.IndexAny: the first index holding a character of the set, or -1. */
  function IndexAny(s: string, chars: set<char>): (i: int)
    ensures -1 <= i < |s|
    ensures i >= 0 ==> s[i] in chars && forall k :: 0 <= k < i ==> s[k] !in chars
    ensures i < 0 ==> forall k :: 0 <= k < |s| ==> s[k] !in chars
  {
    if s == "" then -1
    else if s[0] in chars then 0
    else
      var i := IndexAny(s[1..], chars);
      assert forall k :: 1 <= k < |s| ==> s[k] == s[1..][k - 1];
      if i < 0 then -1 else 1 + i
  }

  predicate FitsBits(v: int, bits: nat) {
    bits >= 1 && 0 - SignedLimit(bits) <= v < SignedLimit(bits)
  }

  /** 2^(bits-1). */
  function SignedLimit(bits: nat): nat
    requires bits >= 1
  {
    if bits == 1 then 1 else 2 * SignedLimit(bits - 1)
  }

  /** strconv.ParseInt(s, 10, bits). */
  function ParseInt(s: string, bits: nat): Option<int> {
    var minus := s != "" && s[0] == '-';
    var digits := if s != "" && (s[0] == '-' || s[0] == '+') then s[1..] else s;
    if !DigitsAtLeastOne(digits) then None
    else
      var v := Signed(minus, DecimalValue(digits));
      if FitsBits(v, bits) then Some(v) else None
  }

  /** parseIntegralJSON: None is the error result. */
  function ParseIntegralJSON(data: string, bits: nat): Option<int> {
    var raw := TrimSpaces(data);
    if raw == "" || (raw[0] != '-' && !IsDigit(raw[0])) || !JsonValidNumber(raw) then None
    else ParseValidNumber(raw, bits)
  }

  /** The exponent is cut off first, then the point is taken out of the mantissa. */
  function ParseValidNumber(raw: string, bits: nat): Option<int>
    requires raw != ""
  {
    var negative := raw[0] == '-';
    var number := if negative then raw[1..] else raw;
    var e := IndexAny(number, {'e', 'E'});
    var mantissa := if e >= 0 then number[..e] else number;
    var exponentText := if e >= 0 then number[e + 1..] else "0";
    ParseMantissa(negative, mantissa, exponentText, |raw|, bits)
  }

  function ParseMantissa(negative: bool, mantissa: string, exponentText: string, length: nat, bits: nat): Option<int> {
    var p := IndexAny(mantissa, {'.'});
    var fractionDigits := if p >= 0 then |mantissa| - p - 1 else 0;
    var coefficient := if p >= 0 then mantissa[..p] + mantissa[p + 1..] else mantissa;
    FromPieces(negative, coefficient, fractionDigits, exponentText, length, bits)
  }

  /** parseIntegralJSON from the point where the text has been cut up. */
  function FromPieces(negative: bool, coefficient: string, fractionDigits: nat, exponentText: string,
                      length: nat, bits: nat): Option<int> {
    var digits := TrimLeftZeros(coefficient);
    if digits == "" then Some(0)
    else
      var exponent := ParseInt(exponentText, 64);
      if exponent.None? || exponent.value > length + 19 || exponent.value < 0 - length then None
      else ScaleAndParse(negative, digits, exponent.value - fractionDigits, bits)
  }

  /** The part of parseIntegralJSON that drops or appends zeros and converts. */
  function ScaleAndParse(negative: bool, digits: string, scale: int, bits: nat): Option<int> {
    var sign := if negative then "-" else "";
    if scale < 0 then
      var remove := -scale;
      if remove >= |digits| then None
      else
        var cut := |digits| - remove;
        if TrimLeftZeros(digits[cut..]) != "" then None
        else ParseInt(sign + digits[..cut], bits)
    else if scale > 0 then
      if |digits| + scale > 19 then None
      else ParseInt(sign + digits + Zeros(scale), bits)
    else ParseInt(sign + digits, bits)
  }

  /** integralInt, decoded in place; null leaves the value as it was. */
  class IntegralInt {
    var value: int

    constructor (v: int)
      ensures value == v
    {
      value := v;
    }

    /** strconv.IntSize is 64 on the supported platforms. */
    method UnmarshalJSON(data: string) returns (ok: bool)
      modifies this
      ensures TrimSpaces(data) == "null" ==> ok && value == old(value)
      ensures TrimSpaces(data) != "null" ==>
                ok == ParseIntegralJSON(data, 64).Some?
                && value == if ok then ParseIntegralJSON(data, 64).value else old(value)
    {
      if TrimSpaces(data) == "null" { return true; }
      var v := ParseIntegralJSON(data, 64);
      ok := v.Some?;
      if ok { value := v.value; }
    }
  }

}
