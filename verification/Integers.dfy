/** Products and quotients of whole numbers. */
module Integers {

  lemma AtLeast(g: int, j: int)
    requires g >= 0 && j >= 1
    ensures g * j >= g
  {
    assert g * j == g * (j - 1) + g;
  }

  lemma AtMost(g: int, j: int)
    requires g >= 0 && j <= -1
    ensures g * j <= -g
  {
    AtLeast(g, -j);
    assert g * j == -(g * -j);
  }

  lemma NothingBetween(g: int, j: int)
    requires 0 <= g * j < g
    ensures j == 0
  {
    if j >= 1 {
      AtLeast(g, j);
    } else if j <= -1 {
      AtMost(g, j);
    }
  }

  /** There is only one quotient and one remainder. */
  lemma DivisionIs(x: int, d: int, q: int, r: int)
    requires 0 <= r < d && x == d * q + r
    ensures x / d == q && x % d == r
  {
    var p, s := x / d, x % d;
    assert x == d * p + s;
    assert d * (q - p) == s - r by {
      assert d * (q - p) == d * q - d * p;
    }
    if s >= r {
      NothingBetween(d, q - p);
    } else {
      assert d * (p - q) == -(d * (q - p));
      NothingBetween(d, p - q);
    }
  }

  lemma QuotientOf(x: int, g: int, k: int)
    requires g > 0 && x == g * k
    ensures x / g == k
  {
    DivisionIs(x, g, k, 0);
  }

  lemma FloorReaches(x: int, d: int, t: int)
    requires d > 0
    ensures x / d >= t <==> x >= t * d
  {
    var q := x / d;
    assert x == d * q + x % d;
    if q >= t {
      Times(d, t, q);
    } else {
      Times(d, q + 1, t);
      assert d * (q + 1) == d * q + d;
    }
    assert t * d == d * t;
  }

  lemma Times(d: int, a: int, b: int)
    requires d >= 0 && a <= b
    ensures d * a <= d * b
  {
    assert d * (b - a) >= 0;
    assert d * b - d * a == d * (b - a);
  }

  lemma FloorBounds(x: int, d: int)
    requires d > 0
    ensures (x / d) * d <= x < (x / d + 1) * d
  {
    var q := x / d;
    assert x == d * q + x % d;
    assert q * d == d * q && (q + 1) * d == d * q + d;
  }

  lemma ProductMonotone(a: nat, b: nat, c: nat, d: nat)
    requires a <= c && b <= d
    ensures a * b <= c * d
  {
    Times(a, b, d);
    Times(d, a, c);
    assert a * d == d * a && c * d == d * c;
  }

  lemma Multiplied(a: int, b: int, w: int)
    requires w > 0
    ensures a * w < b * w <==> a < b
  {
    if a < b {
      assert (b - a) * w > 0;
    } else {
      assert (a - b) * w >= 0;
    }
  }

  lemma ZeroProduct(x: nat, y: nat)
    ensures x * y >= 0 && (x * y == 0 <==> x == 0 || y == 0)
  {
  }
}
