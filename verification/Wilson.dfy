/** wilson of cmd/desktop/calibration_gate.go: the score interval of k successes in n trials, over the reals.
    The square root is a parameter, known only at the one point where the interval needs it. */
module Wilson {

  /** A quantile of the normal distribution with its square. */
  datatype Quantile = Quantile(z: real, w: real)

  predicate IsQuantile(q: Quantile) {
    q.z > 0.0 && q.w > 0.0 && q.w == q.z * q.z
  }

  const Z: real := 1.959963984540054
  const W: real := Z * Z

  /** The quantile of the source, of 95 percent. */
  const Q95 := Quantile(Z, W)

  datatype Interval = Interval(lower: real, upper: real)

  predicate IsSquareRoot(s: real, x: real) {
    s >= 0.0 && s * s == x
  }

  /** The number wilson takes the square root of, for x successes in m trials; w is z * z. */
  function Radicand(x: real, m: real, w: real): real
    requires m > 0.0
  {
    var p := x / m;
    (p * (1.0 - p) + w / (4.0 * m)) / m
  }

  function Center(x: real, m: real, w: real): real
    requires m > 0.0 && w > 0.0
  {
    Positive(w, m);
    (x / m + w / (2.0 * m)) / (1.0 + w / m)
  }

  function HalfWidth(m: real, z: real, w: real, s: real): real
    requires m > 0.0 && w > 0.0
  {
    Positive(w, m);
    z * s / (1.0 + w / m)
  }

  lemma Positive(w: real, m: real)
    requires w > 0.0 && m > 0.0
    ensures w / m > 0.0
  {
  }

  /** The interval before it is clamped to [0, 1]. */
  function Ends(k: int, n: int, q: Quantile, sqrt: real -> real): Interval
    requires n > 0 && q.w > 0.0
  {
    var x, m := k as real, n as real;
    var half := HalfWidth(m, q.z, q.w, sqrt(Radicand(x, m, q.w)));
    Interval(Center(x, m, q.w) - half, Center(x, m, q.w) + half)
  }

  /** wilson, for the quantile Q95. */
  function ScoreInterval(k: int, n: int, q: Quantile, sqrt: real -> real): Interval
    requires q.w > 0.0
  {
    if n <= 0 then Interval(0.0, 0.0)
    else
      var e := Ends(k, n, q, sqrt);
      Interval(if e.lower > 0.0 then e.lower else 0.0, if e.upper < 1.0 then e.upper else 1.0)
  }

  /** sqrt is the square root where the interval of k in n needs it. */
  predicate Sqrt(sqrt: real -> real, k: int, n: int, q: Quantile) {
    n > 0 ==> IsSquareRoot(sqrt(Radicand(k as real, n as real, q.w)), Radicand(k as real, n as real, q.w))
  }

  /** m times the gap between m(p - t)(p - t) and w t(1 - t), for p = x/m: the score equation is Score == 0. */
  function Score(x: real, m: real, w: real, t: real): real {
    var d := x - m * t;
    d * d - w * m * (t * (1.0 - t))
  }

  /** The same for counts. */
  function ScoreOf(k: int, n: int, q: Quantile, t: real): real {
    Score(k as real, n as real, q.w, t)
  }

  // ----- Arithmetic over the reals

  lemma MulSign(a: real, b: real)
    ensures a > 0.0 && b > 0.0 ==> a * b > 0.0
    ensures a > 0.0 && b >= 0.0 ==> a * b >= 0.0
    ensures a > 0.0 && b < 0.0 ==> a * b < 0.0
    ensures a < 0.0 && b < 0.0 ==> a * b > 0.0
  {
  }

  lemma MulMonotone(d: real, s: real, t: real)
    requires d > 0.0
    ensures s < t <==> d * s < d * t
    ensures s == t <==> d * s == d * t
  {
    MulSign(d, t - s);
    MulSign(d, s - t);
    assert d * (t - s) == d * t - d * s;
  }

  lemma SquareGrows(x: real, y: real)
    requires 0.0 <= x < y
    ensures x * x < y * y
  {
    MulSign(y - x, y + x);
    assert (y - x) * (y + x) == y * y - x * x;
  }

  lemma SquarePositive(x: real)
    requires x != 0.0
    ensures x * x > 0.0
  {
    if x > 0.0 { MulPositive(x, x); } else { MulNegative(x, x); }
  }

  lemma MulPositive(a: real, b: real)
    requires a > 0.0 && b > 0.0
    ensures a * b > 0.0
  {
  }

  lemma MulNegative(a: real, b: real)
    requires a < 0.0 && b < 0.0
    ensures a * b > 0.0
  {
  }

  lemma FlipSquare(x: real, y: real)
    ensures (x - y) * (x - y) == (y - x) * (y - x)
  {
  }

  lemma SignOfScaled(m: real, x: real)
    requires m > 0.0
    ensures (m * x < 0.0 <==> x < 0.0) && (m * x == 0.0 <==> x == 0.0)
  {
    MulSign(m, x);
  }

  lemma SignOfProduct(u: real, v: real)
    requires u <= v
    ensures u * v < 0.0 <==> u < 0.0 < v
    ensures u * v == 0.0 <==> u == 0.0 || v == 0.0
  {
    MulSign(u, v);
    MulSign(v, u);
  }

  // ----- The ends, with the denominators cleared

  /** (m + w) times u / (1 + w / m) is m times u. */
  lemma ClearDenominator(u: real, m: real, w: real)
    requires m > 0.0 && w > 0.0
    ensures 1.0 + w / m > 0.0
    ensures (m + w) * (u / (1.0 + w / m)) == m * u
  {
    var d := 1.0 + w / m;
    assert m * d == m + w;
    assert d * (u / d) == u;
    assert (m * d) * (u / d) == m * (d * (u / d));
  }

  lemma CenterScaled(x: real, m: real, w: real)
    requires m > 0.0 && w > 0.0
    ensures (m + w) * Center(x, m, w) == x + w / 2.0
  {
    var p, v := x / m, w / (2.0 * m);
    ClearDenominator(p + v, m, w);
    assert v * (2.0 * m) == w;
    assert m * v == w / 2.0;
    assert m * p == x;
    assert m * (p + v) == m * p + m * v;
  }

  lemma HalfScaled(m: real, z: real, w: real, s: real)
    requires m > 0.0 && w > 0.0
    ensures (m + w) * HalfWidth(m, z, w, s) == m * (z * s)
  {
    ClearDenominator(z * s, m, w);
  }

  lemma RadicandScaled(x: real, m: real, w: real)
    requires m > 0.0
    ensures m * m * m * Radicand(x, m, w) == x * (m - x) + m * w / 4.0
  {
    ClearFour(m, w);
    RadicandOf(x, m, x / m, w / (4.0 * m), w);
  }

  lemma ClearFour(m: real, w: real)
    requires m > 0.0
    ensures m * (w / (4.0 * m)) == w / 4.0
  {
    var v := w / (4.0 * m);
    assert v * (4.0 * m) == w;
  }

  lemma RadicandOf(x: real, m: real, p: real, v: real, w: real)
    requires m > 0.0 && p == x / m && m * v == w / 4.0
    ensures m * m * m * ((p * (1.0 - p) + v) / m) == x * (m - x) + m * w / 4.0
  {
    var q, u := m * m, p * (1.0 - p) + v;
    assert m * (u / m) == u;
    assert m * q * (u / m) == q * (m * (u / m)) == q * u;
    assert m * p == x;
    assert m * (1.0 - p) == m - m * p;
    assert q * (p * (1.0 - p)) == (m * p) * (m * (1.0 - p));
    assert q * v == m * (m * v);
  }

  /** m times the square of the scaled half width is a polynomial in x and m. */
  lemma HalfSquared(x: real, m: real, z: real, w: real, s: real) returns (b: real)
    requires m > 0.0 && z > 0.0 && w > 0.0 && w == z * z && IsSquareRoot(s, Radicand(x, m, w))
    ensures b >= 0.0 && m * (b * b) == w * (x * (m - x) + m * w / 4.0) && (m + w) * HalfWidth(m, z, w, s) == b
  {
    b := m * (z * s);
    HalfScaled(m, z, w, s);
    RadicandScaled(x, m, w);
    Regroup(m, z, s, Radicand(x, m, w));
    NotNegativeProduct(z, s);
    NotNegativeProduct(m, z * s);
  }

  lemma Regroup(m: real, z: real, s: real, r: real)
    requires s * s == r
    ensures var b := m * (z * s); m * (b * b) == (z * z) * (m * m * m * r)
  {
    var v, w, q := z * s, z * z, m * m;
    assert v * v == w * r;
    assert (m * v) * (m * v) == q * (v * v);
    assert m * (q * (w * r)) == (m * q) * (w * r) == w * ((m * q) * r);
  }

  // ----- The score equation, for ends lo = c - h and hi = c + h

  lemma Factor(x: real, m: real, w: real, b: real, t: real)
    requires m * (b * b) == w * (x * (m - x) + m * w / 4.0)
    ensures var u := (m + w) * t - (x + w / 2.0); (m + w) * Score(x, m, w, t) == m * ((u - b) * (u + b))
  {
    var u := (m + w) * t - (x + w / 2.0);
    assert (u - b) * (u + b) == u * u - b * b;
    assert m * ((u - b) * (u + b)) == m * (u * u) - m * (b * b);
    Expand(x, m, w, t);
  }

  lemma Expand(x: real, m: real, w: real, t: real)
    ensures var u := (m + w) * t - (x + w / 2.0);
            (m + w) * ((x - m * t) * (x - m * t) - w * m * (t * (1.0 - t))) == m * (u * u) - w * (x * (m - x) + m * w / 4.0)
  {
    var u := (m + w) * t - (x + w / 2.0);
    var tt, xt := t * t, x * t;
    var d := m + w;
    assert (x - m * t) * (x - m * t) == x * x - 2.0 * (m * xt) + m * m * tt;
    assert t * (1.0 - t) == t - tt;
    assert u * u == d * d * tt - d * t * (2.0 * x + w) + (x + w / 2.0) * (x + w / 2.0);
    assert (x + w / 2.0) * (x + w / 2.0) == x * x + x * w + w * w / 4.0;
    assert d * t * (2.0 * x + w) == 2.0 * (d * xt) + d * t * w;
  }

  lemma ScaledOrder(d: real, c: real, h: real, t: real)
    requires d > 0.0
    ensures (t < c - h <==> d * t - d * c < -(d * h)) && (t == c - h <==> d * t - d * c == -(d * h))
    ensures (t < c + h <==> d * t - d * c < d * h) && (t == c + h <==> d * t - d * c == d * h)
  {
    assert d * (c - h) == d * c - d * h && d * (c + h) == d * c + d * h;
    MulMonotone(d, t, c - h);
    MulMonotone(d, t, c + h);
  }

  /** The score polynomial is negative strictly between lo and hi, zero at them and positive outside. */
  predicate SignAt(x: real, m: real, w: real, lo: real, hi: real, t: real) {
    (Score(x, m, w, t) < 0.0 <==> lo < t < hi) && (Score(x, m, w, t) == 0.0 <==> t == lo || t == hi)
  }

  lemma SignFromScale(x: real, m: real, w: real, c: real, h: real, b: real, t: real)
    requires m > 0.0 && w > 0.0 && b >= 0.0
    requires (m + w) * c == x + w / 2.0 && (m + w) * h == b
    requires m * (b * b) == w * (x * (m - x) + m * w / 4.0)
    ensures h >= 0.0 && SignAt(x, m, w, c - h, c + h, t)
  {
    Factor(x, m, w, b, t);
    SignOfEquals(m + w, c, h, b, t, m, Score(x, m, w, t));
  }

  /** The sign of a number that is a product of the distances of t from c - h and c + h. */
  lemma SignOfEquals(d: real, c: real, h: real, b: real, t: real, m: real, score: real)
    requires d > 0.0 && m > 0.0 && b >= 0.0 && d * h == b
    requires var u := d * t - d * c; d * score == m * ((u - b) * (u + b))
    ensures h >= 0.0
    ensures (score < 0.0 <==> c - h < t < c + h) && (score == 0.0 <==> t == c - h || t == c + h)
  {
    var u := d * t - d * c;
    ScaledOrder(d, c, h, t);
    SignOfProduct(u - b, u + b);
    SignOfScaled(m, (u - b) * (u + b));
    SignOfScaled(d, score);
    SignOfScaled(d, h);
  }

  /** When 0 <= x <= m the scaled half width is positive. */
  lemma HalfPositive(x: real, m: real, w: real, b: real)
    requires m > 0.0 && w > 0.0 && 0.0 <= x <= m && b >= 0.0
    requires m * (b * b) == w * (x * (m - x) + m * w / 4.0)
    ensures b > 0.0
  {
    MulPositive(m, w);
    NotNegativeProduct(x, m - x);
    MulPositive(w, x * (m - x) + m * w / 4.0);
    SquareOfZero(m, b);
  }

  lemma SquareOfZero(m: real, b: real)
    ensures b == 0.0 ==> m * (b * b) == 0.0
  {
  }

  lemma NotNegativeProduct(a: real, b: real)
    requires a >= 0.0 && b >= 0.0
    ensures a * b >= 0.0
  {
  }

  lemma SignsOf(x: real, m: real, z: real, w: real, s: real, t: real)
    requires m > 0.0 && z > 0.0 && w > 0.0 && w == z * z && IsSquareRoot(s, Radicand(x, m, w))
    ensures var c, h := Center(x, m, w), HalfWidth(m, z, w, s);
            && h >= 0.0 && SignAt(x, m, w, c - h, c + h, t)
            && (0.0 <= x <= m ==> h > 0.0 && 0.0 < c < 1.0)
  {
    var b := HalfSquared(x, m, z, w, s);
    CenterScaled(x, m, w);
    SignFromScale(x, m, w, Center(x, m, w), HalfWidth(m, z, w, s), b, t);
    if 0.0 <= x <= m {
      HalfPositive(x, m, w, b);
      CenterInside(m + w, x + w / 2.0, Center(x, m, w));
      CenterInside(m + w, b + 0.0, HalfWidth(m, z, w, s));
    }
  }

  lemma CenterInside(d: real, u: real, c: real)
    requires d > 0.0 && d * c == u
    ensures u > 0.0 ==> c > 0.0
    ensures u < d ==> c < 1.0
  {
    MulMonotone(d, 0.0, c);
    MulMonotone(d, c, 1.0);
  }

  // ----- What the signs mean, for 0 <= x <= m

  /** x/m itself scores -w x(1 - x/m). */
  lemma ScoreAtProportion(x: real, m: real, w: real, p: real)
    requires 0.0 <= x <= m && m > 0.0 && w > 0.0 && m * p == x
    ensures 0.0 <= p <= 1.0 && Score(x, m, w, p) <= 0.0 && (Score(x, m, w, p) == 0.0 ==> p == 0.0 || p == 1.0)
  {
    MulMonotone(m, p, 0.0);
    MulMonotone(m, 1.0, p);
    var d, q := x - m * p, p * (1.0 - p);
    assert d == 0.0;
    assert d * d == 0.0;
    NotNegativeProduct(p, 1.0 - p);
    MulSign(w, m);
    SignOfScaled(w * m, q);
    if q == 0.0 && p > 0.0 && p < 1.0 { MulSign(p, 1.0 - p); }
  }

  lemma ScoreAtBounds(x: real, m: real, w: real)
    ensures Score(x, m, w, 0.0) == x * x >= 0.0
    ensures Score(x, m, w, 1.0) == (x - m) * (x - m) >= 0.0
  {
    if x != 0.0 { SquarePositive(x); }
    if x - m != 0.0 { SquarePositive(x - m); }
    assert w * m * (1.0 * (1.0 - 1.0)) == 0.0;
    assert w * m * (0.0 * (1.0 - 0.0)) == 0.0;
  }

  /** Every sign rule the ends need, at the points where it is used. */
  predicate Signs(x: real, m: real, w: real, lo: real, hi: real, p: real) {
    && 0.0 <= x <= m && m > 0.0 && w > 0.0 && m * p == x && lo < hi && 0.0 < hi && lo < 1.0
    && SignAt(x, m, w, lo, hi, 0.0) && SignAt(x, m, w, lo, hi, 1.0) && SignAt(x, m, w, lo, hi, p)
  }

  lemma Proportion(x: real, m: real)
    requires m > 0.0
    ensures m * (x / m) == x
  {
  }

  lemma AroundProportion(x: real, m: real, w: real, lo: real, hi: real, p: real)
    requires Signs(x, m, w, lo, hi, p)
    ensures 0.0 <= lo <= p <= hi <= 1.0
    ensures (p == lo ==> p == 0.0) && (p == hi ==> p == 1.0)
  {
    ScoreAtProportion(x, m, w, p);
    ScoreAtBounds(x, m, w);
  }

  lemma EndRule(x: real, m: real, w: real, lo: real, hi: real, p: real, a: real)
    requires Signs(x, m, w, lo, hi, p) && SignAt(x, m, w, lo, hi, a)
    ensures 0.0 <= a < 1.0 ==> (lo >= a <==> x >= a * m && Score(x, m, w, a) >= 0.0)
    ensures 0.0 < a <= 1.0 ==> (hi <= a <==> x <= a * m && Score(x, m, w, a) >= 0.0)
  {
    AroundProportion(x, m, w, lo, hi, p);
    EndOrder(x, m, lo, hi, p, a, Score(x, m, w, a));
  }

  lemma EndOrder(x: real, m: real, lo: real, hi: real, p: real, a: real, score: real)
    requires m > 0.0 && m * p == x && lo <= p <= hi && lo < hi && (p == lo ==> p == 0.0) && (p == hi ==> p == 1.0)
    requires score < 0.0 <==> lo < a < hi
    ensures a < 1.0 ==> (lo >= a <==> x >= a * m && score >= 0.0)
    ensures a > 0.0 ==> (hi <= a <==> x <= a * m && score >= 0.0)
  {
    MulMonotone(m, p, a);
    MulMonotone(m, a, p);
    Commute(m, a);
  }

  lemma Commute(a: real, b: real)
    ensures a * b == b * a
  {
  }

  /** More successes score higher to the left of both proportions, and lower to their right. */
  lemma ScoreGrows(x: real, y: real, m: real, w: real, t: real)
    requires x < y
    ensures m * t <= x ==> Score(x, m, w, t) < Score(y, m, w, t)
    ensures y <= m * t ==> Score(y, m, w, t) < Score(x, m, w, t)
  {
    var u := m * t;
    if u <= x { SquareGrows(x - u, y - u); }
    if y <= u {
      SquareGrows(u - y, u - x);
      FlipSquare(u, y);
      FlipSquare(u, x);
    }
  }

  lemma IncreaseRule(x: real, y: real, m: real, w: real, lo: real, hi: real, p: real, lo': real, hi': real, p': real)
    requires x < y && Signs(x, m, w, lo, hi, p) && Signs(y, m, w, lo', hi', p')
    requires SignAt(x, m, w, lo, hi, lo) && SignAt(x, m, w, lo, hi, hi')
    requires SignAt(y, m, w, lo', hi', hi') && SignAt(y, m, w, lo', hi', lo)
    ensures lo < lo' && hi < hi'
  {
    AroundProportion(x, m, w, lo, hi, p);
    AroundProportion(y, m, w, lo', hi', p');
    ScoreGrows(x, y, m, w, lo);
    ScoreGrows(x, y, m, w, hi');
    IncreaseOrder(x, y, m, lo, hi, p, lo', hi', p', Score(y, m, w, lo), Score(x, m, w, hi'));
  }

  lemma IncreaseOrder(x: real, y: real, m: real, lo: real, hi: real, p: real, lo': real, hi': real, p': real, s: real, s': real)
    requires x < y && m > 0.0 && m * p == x && m * p' == y
    requires lo <= p <= hi && lo' <= p' <= hi' && lo < hi && lo' < hi'
    requires (m * lo <= x ==> s > 0.0) && (y <= m * hi' ==> s' > 0.0)
    requires (s < 0.0 <==> lo' < lo < hi') && (s == 0.0 <==> lo == lo' || lo == hi')
    requires (s' < 0.0 <==> lo < hi' < hi) && (s' == 0.0 <==> hi' == lo || hi' == hi)
    ensures lo < lo' && hi < hi'
  {
    MulMonotone(m, p, lo);
    MulMonotone(m, p, p');
    MulMonotone(m, hi', p');
  }

  // ----- The results, for every quantile

  /** e is what the score equation n(p - t)(p - t) == w t(1 - t) cuts out: it is negative strictly inside e, zero at the two
      ends and positive outside. */
  ghost predicate IsScoreInterval(e: Interval, k: int, n: int, q: Quantile) {
    && q.w > 0.0 && e.lower < e.upper && 0.0 < e.upper && e.lower < 1.0
    && forall t :: CutsAt(e, k, n, q, t)
  }

  predicate CutsAt(e: Interval, k: int, n: int, q: Quantile, t: real) {
    SignAt(k as real, n as real, q.w, e.lower, e.upper, t)
  }

  /** The unclamped ends are exactly the solutions of the score equation. */
  lemma EndsAreTheRoots(k: int, n: int, q: Quantile, sqrt: real -> real)
    requires 0 <= k <= n && n > 0 && IsQuantile(q) && Sqrt(sqrt, k, n, q)
    ensures IsScoreInterval(Ends(k, n, q, sqrt), k, n, q)
  {
    hide SignAt;
    var x, m := k as real, n as real;
    var s := sqrt(Radicand(x, m, q.w));
    forall t ensures CutsAt(Ends(k, n, q, sqrt), k, n, q, t) { SignsOf(x, m, q.z, q.w, s, t); }
    SignsOf(x, m, q.z, q.w, s, 0.0);
  }

  /** The interval lies in [0, 1] around k/n. */
  lemma AroundRate(k: int, n: int, q: Quantile, e: Interval)
    requires 0 <= k <= n && n > 0 && IsScoreInterval(e, k, n, q)
    ensures 0.0 <= e.lower <= k as real / n as real <= e.upper <= 1.0
  {
    var p := SignsAtRate(k, n, q, e);
    hide IsScoreInterval, Score, SignAt;
    AroundProportion(k as real, n as real, q.w, e.lower, e.upper, p);
  }

  lemma SignsAtRate(k: int, n: int, q: Quantile, e: Interval) returns (p: real)
    requires 0 <= k <= n && n > 0 && IsScoreInterval(e, k, n, q)
    ensures p == k as real / n as real && Signs(k as real, n as real, q.w, e.lower, e.upper, p)
  {
    hide Score;
    p := k as real / n as real;
    Proportion(k as real, n as real);
    assert CutsAt(e, k, n, q, 0.0) && CutsAt(e, k, n, q, 1.0) && CutsAt(e, k, n, q, p);
  }

  /** Over the reals clamping to [0, 1] changes nothing, so wilson returns exactly what the score equation cuts out. */
  lemma ClampingIsIdle(k: int, n: int, q: Quantile, sqrt: real -> real)
    requires 0 <= k <= n && n > 0 && IsQuantile(q) && Sqrt(sqrt, k, n, q)
    ensures ScoreInterval(k, n, q, sqrt) == Ends(k, n, q, sqrt) && IsScoreInterval(ScoreInterval(k, n, q, sqrt), k, n, q)
  {
    hide Ends, IsScoreInterval;
    EndsAreTheRoots(k, n, q, sqrt);
    AroundRate(k, n, q, Ends(k, n, q, sqrt));
  }

  /** The lower end reaches a exactly when k/n does and the squared distance is large enough: no root is needed. */
  lemma LowerAtLeast(k: int, n: int, q: Quantile, e: Interval, a: real)
    requires 0 <= k <= n && n > 0 && IsScoreInterval(e, k, n, q) && 0.0 <= a < 1.0
    ensures e.lower >= a <==> k as real >= a * n as real && ScoreOf(k, n, q, a) >= 0.0
  {
    EndRuleAt(k, n, q, e, a);
  }

  /** The upper end stays within b exactly when k/n does and the squared distance is large enough. */
  lemma UpperAtMost(k: int, n: int, q: Quantile, e: Interval, b: real)
    requires 0 <= k <= n && n > 0 && IsScoreInterval(e, k, n, q) && 0.0 < b <= 1.0
    ensures e.upper <= b <==> k as real <= b * n as real && ScoreOf(k, n, q, b) >= 0.0
  {
    EndRuleAt(k, n, q, e, b);
  }

  lemma EndRuleAt(k: int, n: int, q: Quantile, e: Interval, a: real)
    requires 0 <= k <= n && n > 0 && IsScoreInterval(e, k, n, q)
    ensures 0.0 <= a < 1.0 ==> (e.lower >= a <==> k as real >= a * n as real && ScoreOf(k, n, q, a) >= 0.0)
    ensures 0.0 < a <= 1.0 ==> (e.upper <= a <==> k as real <= a * n as real && ScoreOf(k, n, q, a) >= 0.0)
  {
    hide Score;
    var p := SignsAtRate(k, n, q, e);
    assert CutsAt(e, k, n, q, a);
    hide IsScoreInterval, SignAt, Signs;
    EndRule(k as real, n as real, q.w, e.lower, e.upper, p, a);
  }

  /** More successes in as many trials move both ends up. */
  lemma EndsIncrease(k: int, j: int, n: int, q: Quantile, e: Interval, f: Interval)
    requires 0 <= k < j <= n && IsScoreInterval(e, k, n, q) && IsScoreInterval(f, j, n, q)
    ensures e.lower < f.lower && e.upper < f.upper
  {
    hide Score;
    var p := SignsAtRate(k, n, q, e);
    var r := SignsAtRate(j, n, q, f);
    assert CutsAt(e, k, n, q, e.lower) && CutsAt(e, k, n, q, f.upper);
    assert CutsAt(f, j, n, q, f.upper) && CutsAt(f, j, n, q, e.lower);
    hide IsScoreInterval, SignAt, Signs;
    IncreaseRule(k as real, j as real, n as real, q.w, e.lower, e.upper, p, f.lower, f.upper, r);
  }
}
