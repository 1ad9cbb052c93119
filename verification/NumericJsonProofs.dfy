/** Exactness of parseIntegralJSON: it accepts precisely the JSON numbers that are integers of the requested width. */
module NumericJsonProofs {
  import opened Common
  import opened Decimals
  import opened NumericJson

  // ----- Trimming

  ghost predicate Padded(data: string, core: string) {
    exists left: string, right: string ::
      AllJsonSpace(left) && AllJsonSpace(right) && data == left + core + right
  }

  predicate SpaceFree(s: string) {
    s != "" && !IsJsonSpace(s[0]) && !IsJsonSpace(s[|s| - 1])
  }

  lemma PadLeft(data: string, core: string)
    requires data != "" && IsJsonSpace(data[0]) && Padded(data[1..], core)
    ensures Padded(data, core)
  {
    var l: string, r: string :| AllJsonSpace(l) && AllJsonSpace(r) && data[1..] == l + core + r;
    var wider := data[..1] + l;
    assert data == data[..1] + data[1..];
    Regroup(data[..1], l, core, r);
    assert AllJsonSpace(wider) && data == wider + core + r;
  }

  lemma PadRight(data: string, core: string)
    requires data != "" && IsJsonSpace(data[|data| - 1]) && Padded(data[..|data| - 1], core)
    ensures Padded(data, core)
  {
    var last := data[|data| - 1..];
    var l: string, r: string :| AllJsonSpace(l) && AllJsonSpace(r) && data[..|data| - 1] == l + core + r;
    var wider := r + last;
    assert data == data[..|data| - 1] + last;
    Associate(l + core, r, last);
    assert AllJsonSpace(wider) && data == l + core + wider;
  }

  lemma {:induction false} TrimPeelsPadding(data: string)
    ensures Padded(data, TrimSpaces(data))
  {
    if data != "" && IsJsonSpace(data[0]) {
      TrimPeelsPadding(data[1..]);
      PadLeft(data, TrimSpaces(data));
    } else if data != "" && IsJsonSpace(data[|data| - 1]) {
      TrimPeelsPadding(data[..|data| - 1]);
      PadRight(data, TrimSpaces(data));
    } else {
      var none := "";
      assert AllJsonSpace(none) && data == none + data + none;
    }
  }

  lemma Regroup(a: string, b: string, c: string, d: string)
    ensures a + (b + c + d) == (a + b) + c + d
  {
  }

  lemma {:induction false} TrimOfPadded(left: string, core: string, right: string)
    requires AllJsonSpace(left) && AllJsonSpace(right) && SpaceFree(core)
    ensures TrimSpaces(left + core + right) == core
    decreases |left| + |right|
  {
    var s := left + core + right;
    if left != "" {
      assert s[1..] == left[1..] + core + right;
      TrimOfPadded(left[1..], core, right);
    } else if right != "" {
      assert s[0] == core[0];
      assert s[..|s| - 1] == left + core + right[..|right| - 1];
      TrimOfPadded(left, core, right[..|right| - 1]);
    } else {
      assert s == core;
    }
  }

  lemma NumbersAreSpaceFree(n: JsonNumber)
    requires WellFormed(n)
    ensures SpaceFree(Render(n)) && (Render(n)[0] == '-' || IsDigit(Render(n)[0]))
    ensures (Render(n)[0] == '-') == n.minus
    ensures n.minus ==> Render(n)[1..] == RenderUnsigned(n)
  {
    var s, tail := RenderUnsigned(n), RenderTail(n);
    assert s[0] == n.whole[0];
    LastOfTail(n);
    assert tail == "" ==> s == n.whole;
    assert tail != "" ==> s[|s| - 1] == tail[|tail| - 1];
  }

  lemma LastOfTail(n: JsonNumber)
    requires WellFormed(n)
    ensures RenderTail(n) != "" ==> IsDigit(RenderTail(n)[|RenderTail(n)| - 1])
  {
    var f, e := RenderFraction(n.fraction), RenderExponent(n.exponent);
    if n.exponent.Some? {
      var d := n.exponent.value.digits;
      assert e[|e| - 1] == d[|d| - 1];
    } else {
      assert RenderTail(n) == f;
    }
  }

  // ----- The pieces the code cuts out are the parts of the number

  lemma NoExponentMarker(n: JsonNumber)
    requires WellFormed(n)
    ensures Without(n.whole + RenderFraction(n.fraction), {'e', 'E'})
    ensures n.exponent.Some? ==> n.exponent.value.marker in {'e', 'E'}
  {
  }

  predicate Without(s: string, chars: set<char>) {
    forall i :: 0 <= i < |s| ==> s[i] !in chars
  }

  lemma CutExponent(n: JsonNumber)
    requires WellFormed(n)
    ensures var number := RenderUnsigned(n);
            var e := IndexAny(number, {'e', 'E'});
            && (if e >= 0 then number[..e] else number) == n.whole + RenderFraction(n.fraction)
            && (e >= 0) == n.exponent.Some?
            && (e >= 0 ==> number[e + 1..] == n.exponent.value.sign + n.exponent.value.digits)
  {
    var m, x := n.whole + RenderFraction(n.fraction), RenderExponent(n.exponent);
    NoExponentMarker(n);
    hide WellFormed, IndexAny, Without;
    Associate(n.whole, RenderFraction(n.fraction), x);
    if n.exponent.Some? {
      ExponentTail([n.exponent.value.marker], n.exponent.value.sign, n.exponent.value.digits);
    }
    CutAt(m, x, {'e', 'E'});
  }

  lemma Associate(a: string, b: string, c: string)
    ensures a + (b + c) == (a + b) + c
  {
  }

  lemma ExponentTail(marker: string, sign: string, digits: string)
    requires |marker| == 1
    ensures var x := marker + sign + digits; x != "" && x[0] == marker[0] && x[1..] == sign + digits
  {
  }

  /** Where the first marker is when m has none and x is empty or starts with one. */
  lemma CutAt(m: string, x: string, markers: set<char>)
    requires Without(m, markers)
    requires x != "" ==> x[0] in markers
    ensures var e := IndexAny(m + x, markers);
            && (if e >= 0 then (m + x)[..e] else m + x) == m
            && (e >= 0) == (x != "")
            && (e >= 0 ==> e == |m| && (m + x)[e + 1..] == x[1..])
  {
    var s := m + x;
    var e := IndexAny(s, markers);
    assert forall i :: 0 <= i < |m| ==> s[i] == m[i];
    if x == "" {
      assert s == m;
    } else {
      assert s[|m|] == x[0];
      assert e == |m|;
    }
  }

  lemma CutFraction(n: JsonNumber)
    requires WellFormed(n)
    ensures var m := n.whole + RenderFraction(n.fraction);
            var p := IndexAny(m, {'.'});
            && (if p >= 0 then |m| - p - 1 else 0) == |FractionDigits(n)|
            && (if p >= 0 then m[..p] + m[p + 1..] else m) == n.whole + FractionDigits(n)
  {
    CutAt(n.whole, RenderFraction(n.fraction), {'.'});
    if n.fraction.Some? {
      assert RenderFraction(n.fraction)[1..] == n.fraction.value;
    } else {
      assert n.whole + FractionDigits(n) == n.whole;
    }
  }

  function ExponentText(n: JsonNumber): string {
    if n.exponent.Some? then n.exponent.value.sign + n.exponent.value.digits else "0"
  }

  lemma ParsedExponent(n: JsonNumber)
    requires WellFormed(n)
    ensures ParseInt(ExponentText(n), 64)
         == if FitsBits(ExponentValue(n), 64) then Some(ExponentValue(n)) else None
  {
    if n.exponent.Some? {
      var x := n.exponent.value;
      var s := ExponentText(n);
      assert x.sign != "" ==> s[1..] == x.digits && s[0] == x.sign[0];
      assert x.sign == "" ==> s == x.digits && s[0] == x.digits[0];
    } else {
      var s := "0";
      assert s[..0] == "";
      assert DecimalValue(s) == 0;
      LimitsAt64();
    }
  }

  lemma MantissaByPieces(n: JsonNumber, length: nat, bits: nat)
    requires WellFormed(n)
    ensures ParseMantissa(n.minus, n.whole + RenderFraction(n.fraction), ExponentText(n), length, bits)
         == FromPieces(n.minus, n.whole + FractionDigits(n), |FractionDigits(n)|, ExponentText(n), length, bits)
  {
    CutFraction(n);
  }

  lemma ParseByPieces(n: JsonNumber, bits: nat)
    requires WellFormed(n) && Render(n) != ""
    ensures ParseValidNumber(Render(n), bits)
         == FromPieces(n.minus, n.whole + FractionDigits(n), |FractionDigits(n)|, ExponentText(n), |Render(n)|, bits)
  {
    NumbersAreSpaceFree(n);
    CutExponent(n);
    MantissaByPieces(n, |Render(n)|, bits);
  }

  // ----- Range facts

  lemma {:induction false} SignedLimitSum(a: nat, b: nat)
    requires a >= 1 && b >= 1
    ensures SignedLimit(a + b - 1) == SignedLimit(a) * SignedLimit(b)
  {
    if a > 1 {
      SignedLimitSum(a - 1, b);
      SignedLimitDoubles(a);
      SignedLimitDoubles(a + b - 1);
      hide SignedLimit;
      Doubled(SignedLimit(a - 1), SignedLimit(b));
    }
  }

  lemma SignedLimitDoubles(a: nat)
    requires a > 1
    ensures SignedLimit(a) == 2 * SignedLimit(a - 1)
  {
  }

  lemma Doubled(x: int, y: int)
    ensures 2 * (x * y) == (2 * x) * y
  {
  }

  lemma LimitsAt64()
    ensures SignedLimit(64) == 0x8000_0000_0000_0000
  {
    assert SignedLimit(4) == 8;
    SignedLimitSum(4, 4);
    SignedLimitSum(7, 7);
    SignedLimitSum(13, 13);
    SignedLimitSum(25, 25);
    SignedLimitSum(49, 13);
    SignedLimitSum(61, 4);
  }

  /** The widths of the decoder: one bit holds -1 and 0, every further bit halves to the ones before it, and 64 bits hold the
      integers of Go's int64. */
  lemma WidthsAreTwosComplement(v: int, bits: nat)
    ensures FitsBits(v, 1) <==> v == -1 || v == 0
    ensures bits >= 1 ==> (FitsBits(v, bits + 1) <==> FitsBits(v / 2, bits))
    ensures FitsBits(v, 64) <==> -9223372036854775808 <= v <= 9223372036854775807
  {
    LimitsAt64();
    if bits >= 1 { SignedLimitDoubles(bits + 1); }
  }

  lemma {:induction false} LimitMonotone(bits: nat)
    requires 1 <= bits <= 64
    ensures 1 <= SignedLimit(bits) <= 0x8000_0000_0000_0000
    decreases 64 - bits
  {
    LimitsAt64();
    LimitPositive(bits);
    if bits < 64 { LimitMonotone(bits + 1); }
  }

  lemma {:induction false} LimitPositive(bits: nat)
    requires bits >= 1
    ensures SignedLimit(bits) >= 1
  {
    if bits > 1 { LimitPositive(bits - 1); }
  }

  /** A nonzero coefficient scaled by 10^19 or more, or having so many digits, fits no 64-bit integer. */
  lemma TooLarge(minus: bool, coefficient: nat, digits: nat, scale: nat, v: int, bits: nat)
    requires 1 <= bits <= 64 && digits >= 1 && coefficient >= Pow10(digits - 1)
    requires digits + scale > 19
    ensures !(FitsBits(v, bits) && ExactlyScaled(minus, coefficient, scale, v))
  {
    LimitMonotone(bits);
    Pow10NineteenOverflows();
    Pow10Monotone(19, digits - 1 + scale);
    Pow10Sum(digits - 1, scale);
    MulMonotone(Pow10(digits - 1), coefficient, Pow10(scale));
  }

  lemma MulMonotone(a: nat, b: nat, c: nat)
    requires a <= b
    ensures a * c <= b * c
  {
    assert b * c - a * c == (b - a) * c;
  }

  /** A nonzero coefficient of at most `remove` digits divided by 10^remove is no integer. */
  lemma TooSmall(minus: bool, coefficient: nat, remove: nat, v: int)
    requires 0 < coefficient < Pow10(remove) && remove > 0
    ensures !ExactlyScaled(minus, coefficient, 0 - remove, v)
  {
    if v != 0 { MagnitudeAtLeast(v, Pow10(remove)); }
  }

  lemma MagnitudeAtLeast(v: int, p: nat)
    requires v != 0
    ensures v * p >= p || v * p <= 0 - p
  {
    if v > 0 {
      Distribute(v, 1, p);
      ProductIsNat(v - 1, p);
    } else {
      Distribute(-1, v, p);
      ProductIsNat(-1 - v, p);
    }
  }

  lemma Distribute(a: int, b: int, p: int)
    ensures (a - b) * p == a * p - b * p
  {
  }

  lemma ProductIsNat(a: nat, p: nat)
    ensures a * p >= 0
  {
  }

  // ----- Scaling

  lemma ParseSigned(negative: bool, digits: string, bits: nat)
    requires DigitsAtLeastOne(digits)
    ensures ParseInt((if negative then "-" else "") + digits, bits)
         == var v := Signed(negative, DecimalValue(digits)); if FitsBits(v, bits) then Some(v) else None
  {
    var s := (if negative then "-" else "") + digits;
    if negative {
      assert s[1..] == digits;
    } else {
      assert s == digits && IsDigit(s[0]);
    }
  }

  lemma AppendZeros(digits: string, scale: nat)
    requires DigitsAtLeastOne(digits)
    ensures DigitsAtLeastOne(digits + Zeros(scale))
    ensures DecimalValue(digits + Zeros(scale)) == DecimalValue(digits) * Pow10(scale)
  {
    ValueOfZeros(Zeros(scale));
    ValueOfConcat(digits, Zeros(scale));
  }

  lemma ScaleUpValue(negative: bool, digits: string, scale: nat, bits: nat)
    requires DigitsAtLeastOne(digits) && (scale > 0 ==> |digits| + scale <= 19)
    ensures ScaleAndParse(negative, digits, scale, bits)
         == var v := Signed(negative, DecimalValue(digits) * Pow10(scale)); if FitsBits(v, bits) then Some(v) else None
  {
    AppendZeros(digits, scale);
    var padded := digits + Zeros(scale);
    ParseSigned(negative, padded, bits);
    var sign := if negative then "-" else "";
    assert sign + digits + Zeros(scale) == sign + padded;
    if scale == 0 { assert padded == digits; }
  }

  lemma ScaleUp(negative: bool, digits: string, scale: nat, bits: nat, v: int)
    requires DigitsAtLeastOne(digits) && digits[0] != '0' && 1 <= bits <= 64
    ensures ScaleAndParse(negative, digits, scale, bits) == Some(v)
       <==> FitsBits(v, bits) && ExactlyScaled(negative, DecimalValue(digits), scale, v)
  {
    if scale > 0 && |digits| + scale > 19 {
      ValueAtLeast(digits);
      TooLarge(negative, DecimalValue(digits), |digits|, scale, v, bits);
    } else {
      ScaleUpValue(negative, digits, scale, bits);
    }
  }

  lemma ScaleDown(negative: bool, digits: string, remove: nat, bits: nat, v: int)
    requires DigitsAtLeastOne(digits) && digits[0] != '0' && remove > 0
    ensures ScaleAndParse(negative, digits, 0 - remove, bits) == Some(v)
       <==> FitsBits(v, bits) && ExactlyScaled(negative, DecimalValue(digits), 0 - remove, v)
  {
    ValueAtLeast(digits);
    ValueBelow(digits);
    if remove >= |digits| {
      Pow10Monotone(|digits|, remove);
      TooSmall(negative, DecimalValue(digits), remove, v);
    } else {
      var cut := |digits| - remove;
      var head, tail := digits[..cut], digits[cut..];
      assert digits == head + tail;
      ValueOfConcat(head, tail);
      ValueBelow(tail);
      TrimLeftZerosEmpty(tail);
      if AllZeros(tail) {
        ValueOfZeros(tail);
        ParseSigned(negative, head, bits);
        DivisionIsExact(negative, DecimalValue(head), Pow10(remove), v);
      } else {
        if DecimalValue(tail) == 0 { ZeroValueMeansZeros(tail); }
        RemainderBlocks(negative, DecimalValue(head), Pow10(remove), DecimalValue(tail), v);
      }
    }
  }

  lemma DivisionIsExact(minus: bool, h: nat, p: nat, v: int)
    requires p >= 1
    ensures v * p == Signed(minus, h * p) <==> v == Signed(minus, h)
  {
    var w := Signed(minus, h);
    assert w * p == Signed(minus, h * p);
    if v != w {
      assert v * p - w * p == (v - w) * p;
      if v > w { MulAtLeast(p, v - w); } else { MulAtLeast(p, w - v); assert (w - v) * p == -((v - w) * p); }
    }
  }

  lemma RemainderBlocks(minus: bool, h: nat, p: nat, r: nat, v: int)
    requires 0 < r < p
    ensures v * p != Signed(minus, h * p + r)
  {
    var u := if minus then 0 - v else v;
    Distribute(0, v, p);
    Distribute(u, h, p);
    if u != h { MagnitudeAtLeast(u - h, p); }
  }

  lemma ScaleExact(negative: bool, digits: string, scale: int, bits: nat, v: int)
    requires DigitsAtLeastOne(digits) && digits[0] != '0' && 1 <= bits <= 64
    ensures ScaleAndParse(negative, digits, scale, bits) == Some(v)
       <==> FitsBits(v, bits) && ExactlyScaled(negative, DecimalValue(digits), scale, v)
  {
    hide ScaleAndParse, ExactlyScaled, FitsBits, DecimalValue;
    if scale >= 0 {
      ScaleUp(negative, digits, scale, bits, v);
    } else {
      ScaleDown(negative, digits, -scale, bits, v);
    }
  }

  // ----- The cut-offs reject nothing representable

  lemma PiecesExact(n: JsonNumber, length: nat, bits: nat, v: int)
    requires WellFormed(n) && 1 <= bits <= 64
    requires |n.whole| + |FractionDigits(n)| <= length < 0x7fff_ffff_ffff_ffff - 19
    ensures FromPieces(n.minus, n.whole + FractionDigits(n), |FractionDigits(n)|, ExponentText(n), length, bits) == Some(v)
       <==> FitsBits(v, bits) && Denotes(n, v)
  {
    hide FromPieces, ExactlyScaled, ParseInt, FitsBits, ExponentText;
    ParsedExponent(n);
    ValueOfConcatIsDefined(n.whole, FractionDigits(n));
    PiecesRule(n.minus, n.whole + FractionDigits(n), |FractionDigits(n)|, ExponentText(n), ExponentValue(n), length, bits, v);
  }

  lemma NothingIsZero()
    ensures DecimalValue("") == 0
  {
  }

  lemma PiecesRule(minus: bool, coefficient: string, fraction: nat, text: string, exponent: int, length: nat, bits: nat, v: int)
    requires AllDigits(coefficient) && fraction <= |coefficient| <= length < 0x7fff_ffff_ffff_ffff - 19 && 1 <= bits <= 64
    requires ParseInt(text, 64) == if FitsBits(exponent, 64) then Some(exponent) else None
    ensures FromPieces(minus, coefficient, fraction, text, length, bits) == Some(v)
       <==> FitsBits(v, bits) && ExactlyScaled(minus, DecimalValue(coefficient), exponent - fraction, v)
  {
    hide ParseInt, ScaleAndParse, ExactlyScaled, DecimalValue;
    var digits, scale := TrimLeftZeros(coefficient), exponent - fraction;
    TrimLeftZerosKeepsValue(coefficient);
    hide TrimLeftZeros;
    if digits == "" {
      NothingIsZero();
      ZeroIsZero(minus, scale, v);
      LimitMonotone(bits);
    } else if exponent > length + 19 || exponent < 0 - length {
      CutOffsAreSafe(minus, digits, length, scale, v, bits);
    } else {
      LimitsAt64();
      ScaleExact(minus, digits, scale, bits, v);
    }
  }

  /** Beyond the exponent bounds no integer of at most 64 bits is denoted. */
  lemma CutOffsAreSafe(minus: bool, digits: string, length: nat, scale: int, v: int, bits: nat)
    requires DigitsAtLeastOne(digits) && digits[0] != '0' && |digits| <= length && 1 <= bits <= 64
    requires scale > 19 || scale < 0 - length
    ensures !(FitsBits(v, bits) && ExactlyScaled(minus, DecimalValue(digits), scale, v))
  {
    ValueAtLeast(digits);
    if scale > 19 {
      TooLarge(minus, DecimalValue(digits), |digits|, scale, v, bits);
    } else {
      ValueBelow(digits);
      Pow10Monotone(|digits|, -scale);
      TooSmall(minus, DecimalValue(digits), -scale, v);
    }
  }

  lemma ZeroIsZero(minus: bool, scale: int, v: int)
    ensures ExactlyScaled(minus, 0, scale, v) <==> v == 0
  {
    if scale < 0 {
      Pow10Positive(-scale);
      DivisionIsExact(minus, 0, Pow10(-scale), v);
    }
  }

  lemma PiecesFitText(n: JsonNumber)
    requires WellFormed(n)
    ensures |n.whole| + |FractionDigits(n)| <= |Render(n)|
  {
  }

  /** The text is a JSON number of the grammar, up to surrounding JSON white space, denoting exactly v. */
  ghost predicate SpellsExactly(data: string, v: int) {
    exists n: JsonNumber :: WellFormed(n) && Padded(data, Render(n)) && Denotes(n, v)
  }

  /** The law of numeric_json.go: v is returned if and only if the text is a JSON number whose exact value is
      v and v fits the width; the length and exponent cut-offs never reject a representable integer.
      Go slices cannot be as long as the bound on the length. */
  lemma ParseIsExact(data: string, bits: nat, v: int)
    requires 1 <= bits <= 64 && |data| < 0x7fff_ffff_ffff_ffff - 19
    ensures ParseIntegralJSON(data, bits) == Some(v) <==> FitsBits(v, bits) && SpellsExactly(data, v)
  {
    var raw := TrimSpaces(data);
    TrimPeelsPadding(data);
    if JsonValidNumber(raw) {
      ScanSound(raw);
      var n := ScanNumber(raw).value;
      NumbersAreSpaceFree(n);
      ParseByPieces(n, bits);
      PiecesFitText(n);
      PiecesExact(n, |raw|, bits, v);
      if SpellsExactly(data, v) {
        var m :| WellFormed(m) && Padded(data, Render(m)) && Denotes(m, v);
        NumberIsUnique(data, m);
      }
    } else if SpellsExactly(data, v) {
      var m :| WellFormed(m) && Padded(data, Render(m)) && Denotes(m, v);
      NumberIsUnique(data, m);
    }
  }

  /** The text of a padded number determines the number. */
  lemma NumberIsUnique(data: string, m: JsonNumber)
    requires WellFormed(m) && Padded(data, Render(m))
    ensures ScanNumber(TrimSpaces(data)) == Some(m)
  {
    NumbersAreSpaceFree(m);
    var left: string, right: string :|
      AllJsonSpace(left) && AllJsonSpace(right) && data == left + Render(m) + right;
    TrimOfPadded(left, Render(m), right);
    ScanComplete(m);
  }

  /** At most one integer is spelled, so the decoded value is determined. */
  lemma SpelledValueIsUnique(data: string, v: int, w: int)
    requires SpellsExactly(data, v) && SpellsExactly(data, w)
    ensures v == w
  {
    var n :| WellFormed(n) && Padded(data, Render(n)) && Denotes(n, v);
    var m :| WellFormed(m) && Padded(data, Render(m)) && Denotes(m, w);
    NumberIsUnique(data, n);
    NumberIsUnique(data, m);
    DenotedValueIsUnique(n, v, w);
  }

  lemma DenotedValueIsUnique(n: JsonNumber, v: int, w: int)
    requires WellFormed(n) && Denotes(n, v) && Denotes(n, w)
    ensures v == w
  {
    ScaledValueIsUnique(n.minus, Coefficient(n), ExponentValue(n) - |FractionDigits(n)|, v, w);
  }

  lemma ScaledValueIsUnique(minus: bool, coefficient: nat, scale: int, v: int, w: int)
    requires ExactlyScaled(minus, coefficient, scale, v) && ExactlyScaled(minus, coefficient, scale, w)
    ensures v == w
  {
    if scale < 0 {
      Pow10Positive(-scale);
      SameProduct(v, w, Pow10(-scale));
    }
  }

  lemma SameProduct(v: int, w: int, p: nat)
    requires p >= 1 && v * p == w * p
    ensures v == w
  {
    assert (v - w) * p == 0;
    if v != w { MagnitudeAtLeast(v - w, p); }
  }
}
