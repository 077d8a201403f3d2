/** Rational rescaling with libavutil's meaning: exact, then rounded to nearest, ties away from zero. */
module Rescaling {

  datatype Rational = Rational(num: int, den: int)

  predicate Positive(r: Rational) {
    r.num > 0 && r.den > 0
  }

  const AV_TIME_BASE := 1_000_000
  const AV_TIME_BASE_Q := Rational(1, AV_TIME_BASE)

  /** n / d to the nearest integer. */
  function RoundDiv(n: int, d: int): (q: int)
    requires d > 0
    ensures -d <= 2 * (n - q * d) <= d
  {
    var q := if n >= 0 then (2 * n + d) / (2 * d) else -((d - 2 * n) / (2 * d));
    assert -d <= 2 * (n - q * d) <= d by { RoundDivNearest(n, d, q); }
    q
  }

  lemma RoundDivNearest(n: int, d: int, q: int)
    requires d > 0 && q == if n >= 0 then (2 * n + d) / (2 * d) else -((d - 2 * n) / (2 * d))
    ensures -d <= 2 * (n - q * d) <= d
  {
    var m := if n >= 0 then 2 * n + d else d - 2 * n;
    var k := m / (2 * d);
    DivisionBounds(m, 2 * d);
    assert k * (2 * d) == 2 * (k * d);
    assert q == k || q == -k;
    assert (-k) * d == -(k * d);
  }

  lemma DivisionBounds(m: int, d: int)
    requires d > 0
    ensures (m / d) * d <= m < (m / d) * d + d
  {
    assert m == (m / d) * d + m % d;
  }

  /** av_rescale(a, b, c) */
  function Rescale(a: int, b: int, c: int): int
    requires c > 0
  {
    RoundDiv(a * b, c)
  }

  /** av_rescale_q(a, from, to) */
  function RescaleQ(a: int, from: Rational, to: Rational): int
    requires Positive(from) && Positive(to)
  {
    assert from.den * to.num > 0 by { ProductPositive(from.den, to.num); }
    RoundDiv(a * (from.num * to.den), from.den * to.num)
  }

  lemma ProductPositive(a: int, b: int)
    requires a > 0 && b > 0
    ensures a * b > 0
  {
  }

  lemma MultiplyOrder(a: int, b: int, d: int)
    requires a <= b && d >= 0
    ensures a * d <= b * d
  {
  }

  lemma FactorOrder(a: int, b: int, d: int)
    requires d > 0 && a * d < b * d
    ensures a < b
  {
    if b <= a {
      MultiplyOrder(b, a, d);
    }
  }

  /** A quotient that is at least k rounds to at least k; an exact one is kept. */
  lemma RoundDivAtLeast(n: int, d: int, k: int)
    requires d > 0 && n >= k * d
    ensures RoundDiv(n, d) >= k
  {
    var q := RoundDiv(n, d);
    assert (k - 1) * d == k * d - d;
    FactorOrder(k - 1, q, d);
  }

  lemma RoundDivExact(k: int, d: int)
    requires d > 0
    ensures RoundDiv(k * d, d) == k
  {
    var q := RoundDiv(k * d, d);
    assert k * d - q * d == (k - q) * d;
    assert -d <= 2 * ((k - q) * d) <= d;
    FactorOrder(k - q, 1, d);
    FactorOrder(-1, k - q, d);
  }

  /** av_gcd(a, b) */
  function Gcd(a: nat, b: nat): (g: nat)
    requires a > 0 || b > 0
    ensures g > 0 && a % g == 0 && b % g == 0
    decreases b
  {
    if b == 0 then a
    else
      var g := Gcd(b, a % b);
      assert a % g == 0 by { RemainderDivides(a, b, g); }
      g
  }

  lemma RemainderDivides(a: nat, b: nat, g: nat)
    requires b > 0 && g > 0 && b % g == 0 && (a % b) % g == 0
    ensures a % g == 0
  {
    var k, m := b / g, (a % b) / g;
    assert a == (a / b) * b + a % b && b == k * g && a % b == m * g;
    assert a == ((a / b) * k + m) * g by { assert ((a / b) * k + m) * g == (a / b) * (k * g) + m * g; }
    MultipleDivides((a / b) * k + m, g);
  }

  lemma MultipleDivides(k: int, g: int)
    requires g > 0
    ensures (k * g) % g == 0 && (k * g) / g == k
  {
    var x := k * g;
    assert x == (x / g) * g + x % g;
    assert (k - x / g) * g == x % g;
    if k - x / g >= 1 {
      MultiplyOrder(1, k - x / g, g);
    } else if k - x / g <= -1 {
      MultiplyOrder(k - x / g, -1, g);
    }
  }
}
