/** Exact fractions: the greatest common divisor, lowest terms, and their value as a real number. */
module Fractions {
  import opened Integers

  function Abs(x: int): nat {
    if x < 0 then -x else x
  }

  function Gcd(a: nat, b: nat): nat
    decreases b
  {
    if b == 0 then a else Gcd(b, a % b)
  }

  /** Euclid's algorithm. */
  method GreatestCommonDivisor(left: int, right: int) returns (divisor: nat)
    ensures divisor == Gcd(Abs(left), Abs(right))
  {
    var a, b := Abs(left), Abs(right);
    while b != 0
      invariant Gcd(a, b) == Gcd(Abs(left), Abs(right))
      decreases b
    {
      a, b := b, a % b;
    }
    divisor := a;
  }

  ghost predicate Divides(d: int, x: int) {
    exists k: int :: x == d * k
  }

  lemma CombinationDivides(d: int, b: int, r: int, q: int)
    requires Divides(d, b) && Divides(d, r)
    ensures Divides(d, b * q + r)
  {
    var k, m :| b == d * k && r == d * m;
    assert b * q == d * (k * q);
    assert b * q + r == d * (k * q + m);
  }

  lemma {:induction false} GcdDivides(a: nat, b: nat)
    ensures Divides(Gcd(a, b), a) && Divides(Gcd(a, b), b)
    ensures a > 0 || b > 0 ==> Gcd(a, b) > 0
    decreases b
  {
    if b == 0 {
      assert a == a * 1 && b == a * 0;
    } else {
      GcdDivides(b, a % b);
      CombinationDivides(Gcd(a, b), b, a % b, a / b);
    }
  }

  lemma {:induction false} GcdGreatest(a: nat, b: nat, d: int)
    requires Divides(d, a) && Divides(d, b)
    ensures Divides(d, Gcd(a, b))
    decreases b
  {
    if b != 0 {
      CombinationDivides(d, b, a, -(a / b));
      assert b * -(a / b) + a == a % b;
      GcdGreatest(b, a % b, d);
    }
  }

  predicate LowestTerms(numerator: int, denominator: int) {
    numerator >= 0 && denominator > 0 && Gcd(numerator, denominator) == 1
  }

  function Reduced(numerator: nat, denominator: nat): (int, int) {
    var divisor := Gcd(numerator, denominator);
    if divisor == 0 then (0, 1) else (numerator / divisor, denominator / divisor)
  }

  method Reduce(numerator: nat, denominator: nat) returns (n: int, d: int)
    ensures (n, d) == Reduced(numerator, denominator)
  {
    var divisor := GreatestCommonDivisor(numerator, denominator);
    if divisor == 0 {
      return 0, 1;
    }
    n, d := numerator / divisor, denominator / divisor;
  }

  /** Reducing leaves the value alone and ends in lowest terms. */
  lemma ReducedIsSame(numerator: nat, denominator: nat)
    requires denominator > 0
    ensures var (n, d) := Reduced(numerator, denominator);
            && LowestTerms(n, d) && n * denominator == numerator * d
  {
    var g := Gcd(numerator, denominator);
    GcdDivides(numerator, denominator);
    var k :| numerator == g * k;
    var m :| denominator == g * m;
    QuotientOf(numerator, g, k);
    QuotientOf(denominator, g, m);
    assert k * denominator == numerator * m by {
      assert k * (g * m) == (g * k) * m;
    }
    Positive(g, m);
    NonNegative(g, k);
    GcdDivides(k, m);
    NoMoreInCommon(numerator, denominator, g, Gcd(k, m), k, m);
  }

  lemma Positive(g: int, m: int)
    requires g > 0 && g * m > 0
    ensures m > 0
  {
  }

  lemma NonNegative(g: int, k: int)
    requires g > 0 && g * k >= 0
    ensures k >= 0
  {
  }

  lemma NoMoreInCommon(x: nat, y: nat, g: int, h: int, k: int, m: int)
    requires g == Gcd(x, y) && g > 0 && h > 0
    requires x == g * k && y == g * m && Divides(h, k) && Divides(h, m)
    ensures h == 1
  {
    DividesBoth(x, g, h, k);
    DividesBoth(y, g, h, m);
    var both := g * h;
    GcdGreatest(x, y, both);
    var t :| g == both * t;
    OneOrNothing(g, h, t);
  }

  lemma DividesBoth(x: int, g: int, h: int, k: int)
    requires x == g * k && Divides(h, k)
    ensures Divides(g * h, x)
  {
    var p :| k == h * p;
    assert g * (h * p) == (g * h) * p;
    assert x == (g * h) * p;
  }

  lemma OneOrNothing(g: int, h: int, t: int)
    requires g > 0 && h > 0 && g == (g * h) * t
    ensures h == 1
  {
    assert (g * h) * t == g * (h * t);
    assert g * (h * t - 1) == 0;
    NothingBetween(g, h * t - 1);
    if t >= 1 {
      AtLeast(h, t);
    } else if t <= -1 {
      AtMost(h, t);
    }
  }

  // ---------------------------------------------------------------- values

  function Value(numerator: int, denominator: int): real
    requires denominator != 0
  {
    numerator as real / denominator as real
  }

  lemma ValueIs(numerator: int, denominator: int, q: real)
    requires denominator != 0 && numerator as real == q * denominator as real
    ensures Value(numerator, denominator) == q
  {
  }

  lemma ValueTimes(numerator: int, denominator: int)
    requires denominator != 0
    ensures Value(numerator, denominator) * denominator as real == numerator as real
  {
  }

  lemma SameValue(n: int, d: int, numerator: int, denominator: int)
    requires d > 0 && denominator > 0 && n * denominator == numerator * d
    ensures Value(n, d) == Value(numerator, denominator)
  {
  }

  lemma Scaled(v: real, u: real, scale: real)
    requires scale > 0.0
    ensures v * scale < u * scale <==> v < u
  {
  }
}
