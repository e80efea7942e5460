/**
 * `utils::map` (src/utils.rs): carries `x`, taken between `a` and `b`, to the
 * matching point between `c` and `d` by `(x - a) / (b - a) * (d - c) + c`.
 * The source is generic over any type with `+ - * /`; it is modelled over
 * `int` with Rust's truncating division and over `real` as an exact stand-in
 * for the floating-point instantiation.
 */
module Utils {

  function Abs(n: int): nat
  {
    if n < 0 then -n else n
  }

  // ---------------------------------------------------------------------------
  // Rust integer division
  // ---------------------------------------------------------------------------

  /** Rust's integer `/`: the quotient of the magnitudes, negated when the signs differ. */
  function TruncDiv(n: int, d: int): int
    requires d != 0
  {
    if (n >= 0) == (d > 0) then Abs(n) / Abs(d) else -(Abs(n) / Abs(d))
  }

  /**
   * `TruncDiv` truncates toward zero: the remainder it leaves is smaller than
   * the divisor in magnitude and never has the opposite sign of the dividend
   * (unlike Dafny's Euclidean `/`, whose remainder is never negative).
   */
  lemma TruncDivRemainder(n: int, d: int)
    requires d != 0
    ensures Abs(n - TruncDiv(n, d) * d) < Abs(d)
    ensures n >= 0 ==> n - TruncDiv(n, d) * d >= 0
    ensures n <= 0 ==> n - TruncDiv(n, d) * d <= 0
  {
    var a: int, b: int := Abs(n), Abs(d);
    var u: int := a / b;
    assert a - u * b == a % b && 0 <= a % b < b;
    var q := TruncDiv(n, d);
    QuotientTimesDivisor(n, d, u);
    if n >= 0 {
      assert n - q * d == a % b;
    } else {
      assert n - q * d == -(a % b);
    }
  }

  /** The truncated quotient times the divisor is the magnitudes' product, signed as the dividend. */
  lemma QuotientTimesDivisor(n: int, d: int, u: int)
    requires d != 0 && u == Abs(n) / Abs(d)
    ensures TruncDiv(n, d) * d == if n >= 0 then u * Abs(d) else -(u * Abs(d))
  {
    if d < 0 {
      assert u * d == -(u * Abs(d));
      assert (-u) * d == u * Abs(d);
    }
  }

  /** A dividend smaller in magnitude than the divisor truncates to zero. */
  lemma TruncDivSmall(n: int, d: int)
    requires d != 0 && Abs(n) < Abs(d)
    ensures TruncDiv(n, d) == 0
  {
    assert Abs(n) / Abs(d) == 0;
  }

  // ---------------------------------------------------------------------------
  // `map` over integers
  // ---------------------------------------------------------------------------

  /** `map` over integers; dividing by `b - a` needs `a != b`. */
  function MapInt(x: int, a: int, b: int, c: int, d: int): int
    requires a != b
  {
    TruncDiv(x - a, b - a) * (d - c) + c
  }

  /** `a` maps to `c` and `b` maps to `d`. */
  lemma MapIntEndpoints(a: int, b: int, c: int, d: int)
    requires a != b
    ensures MapInt(a, a, b, c, d) == c
    ensures MapInt(b, a, b, c, d) == d
  {
    assert TruncDiv(0, b - a) == 0;
    assert Abs(b - a) / Abs(b - a) == 1;
  }

  /**
   * The integer quotient `(x - a) / (b - a)` is zero for every `x` strictly
   * closer to `a` than `b` is, so all of those points collapse onto `c`.
   */
  lemma MapIntCollapses(x: int, a: int, b: int, c: int, d: int)
    requires a != b && Abs(x - a) < Abs(b - a)
    ensures MapInt(x, a, b, c, d) == c
  {
    TruncDivSmall(x - a, b - a);
  }

  /**
   * For `a < b` and `a <= x <= b`, the integer result is `c` everywhere but at
   * `b`, where it is `d`; with `c <= d` it lies in `[c, d]` as documented.
   */
  lemma MapIntRange(x: int, a: int, b: int, c: int, d: int)
    requires a < b && a <= x <= b
    ensures MapInt(x, a, b, c, d) == if x == b then d else c
    ensures c <= d ==> c <= MapInt(x, a, b, c, d) <= d
  {
    if x == b {
      MapIntEndpoints(a, b, c, d);
    } else {
      MapIntCollapses(x, a, b, c, d);
    }
  }

  // ---------------------------------------------------------------------------
  // `map` over reals
  // ---------------------------------------------------------------------------

  /** `map` over reals: the point (x, r) lies on the line through (a, c) and (b, d). */
  function MapReal(x: real, a: real, b: real, c: real, d: real): (r: real)
    requires a != b
    ensures (r - c) * (b - a) == (x - a) * (d - c)
  {
    (x - a) / (b - a) * (d - c) + c
  }

  /** Dividing by a positive real keeps order. */
  lemma QuotientOrder(p: real, q: real, k: real)
    requires k > 0.0 && p <= q
    ensures p / k <= q / k
  {
    var u, v := p / k, q / k;
    assert u * k == p && v * k == q;
    assert (v - u) * k == q - p;
  }

  /** `a` maps to `c` and `b` maps to `d`. */
  lemma MapRealEndpoints(a: real, b: real, c: real, d: real)
    requires a != b
    ensures MapReal(a, a, b, c, d) == c
    ensures MapReal(b, a, b, c, d) == d
  {
    assert (b - a) / (b - a) == 1.0;
  }

  lemma ProductNonNegative(u: real, v: real)
    requires u >= 0.0 && v >= 0.0
    ensures u * v >= 0.0
  {
  }

  /** A product with a positive factor is non-negative only when the other factor is. */
  lemma NonNegativeFactor(u: real, k: real)
    requires k > 0.0 && u * k >= 0.0
    ensures u >= 0.0
  {
    QuotientOrder(0.0, u * k, k);
    assert (u * k) / k == u;
  }

  /** For `a < b` and `c <= d`, a point of `[a, b]` lands in `[c, d]`, as documented. */
  lemma MapRealRange(x: real, a: real, b: real, c: real, d: real)
    requires a < b && c <= d && a <= x <= b
    ensures c <= MapReal(x, a, b, c, d) <= d
  {
    var r := MapReal(x, a, b, c, d);
    assert (r - c) * (b - a) == (x - a) * (d - c);
    ProductNonNegative(x - a, d - c);
    NonNegativeFactor(r - c, b - a);
    assert (d - r) * (b - a) == (d - c) * (b - a) - (r - c) * (b - a);
    assert (d - c) * (b - a) - (x - a) * (d - c) == (b - x) * (d - c);
    ProductNonNegative(b - x, d - c);
    NonNegativeFactor(d - r, b - a);
  }

  /** For `a < b` and `c <= d`, the mapping never decreases. */
  lemma MapRealMonotone(x: real, y: real, a: real, b: real, c: real, d: real)
    requires a < b && c <= d && x <= y
    ensures MapReal(x, a, b, c, d) <= MapReal(y, a, b, c, d)
  {
    var s, t := (x - a) / (b - a), (y - a) / (b - a);
    QuotientOrder(x - a, y - a, b - a);
    assert s * (d - c) <= t * (d - c);
  }

  /** Mapping `[a, b]` onto `[c, d]` and back returns the starting point when `c != d`. */
  lemma MapRealRoundTrip(x: real, a: real, b: real, c: real, d: real)
    requires a != b && c != d
    ensures MapReal(MapReal(x, a, b, c, d), c, d, a, b) == x
  {
    var t := (x - a) / (b - a);
    var y := MapReal(x, a, b, c, d);
    assert y - c == t * (d - c);
    assert (y - c) / (d - c) == t;
    assert t * (b - a) == x - a;
  }
}
