/** Dot products over exact reals and the Cauchy-Schwarz inequality. */
module Vectors {
  type Vector = seq<real>

  function Dot(a: Vector, b: Vector): real
    requires |a| == |b|
  {
    if a == [] then 0.0
    else Dot(a[..|a| - 1], b[..|b| - 1]) + a[|a| - 1] * b[|b| - 1]
  }

  function NormSq(a: Vector): real {
    Dot(a, a)
  }

  /** What the products add up to: one product per pair of components. */
  lemma {:induction false} DotConcat(a: Vector, b: Vector, c: Vector, d: Vector)
    requires |a| == |b| && |c| == |d|
    ensures Dot(a + c, b + d) == Dot(a, b) + Dot(c, d)
    ensures |a| == 1 ==> Dot(a, b) == a[0] * b[0]
  {
    if c == [] {
      assert a + c == a && b + d == b;
    } else {
      var n := |c| - 1;
      assert (a + c)[..|a| + n] == a + c[..n] && (b + d)[..|b| + n] == b + d[..n];
      DotConcat(a, b, c[..n], d[..n]);
    }
  }

  lemma SquareNonNegative(x: real)
    ensures x * x >= 0.0
  {}

  // Multiplication under a name, so that squares of equal terms agree without
  // non-linear reasoning.

  function Mul(x: real, y: real): real { x * y }

  function Sq(x: real): real { Mul(x, x) }

  lemma MulPositive(x: real, y: real)
    requires x > 0.0 && y > 0.0
    ensures Mul(x, y) > 0.0
  {}

  lemma MulOfNegatives(x: real, y: real)
    requires x < 0.0 && y < 0.0
    ensures Mul(x, y) > 0.0
  {}

  lemma SqPositive(d: real)
    requires d != 0.0
    ensures Sq(d) > 0.0
  {
    if d > 0.0 { MulPositive(d, d); } else { MulOfNegatives(d, d); }
  }

  lemma SqBelow(d: real, r: real)
    requires Sq(d) <= r && d != 0.0
    ensures r > 0.0
  {
    SqPositive(d);
  }

  lemma Positive(p: real, x: real)
    requires p > 0.0 && x > 0.0
    ensures p * x > 0.0
  {}

  lemma Negative(p: real, x: real)
    requires p > 0.0 && x < 0.0
    ensures p * x < 0.0
  {}

  lemma {:induction false} NormSqNonNegative(a: Vector)
    ensures NormSq(a) >= 0.0
  {
    if a != [] {
      NormSqNonNegative(a[..|a| - 1]);
      SquareNonNegative(a[|a| - 1]);
    }
  }

  lemma {:induction false} DotSymmetric(a: Vector, b: Vector)
    requires |a| == |b|
    ensures Dot(a, b) == Dot(b, a)
  {
    if a != [] { DotSymmetric(a[..|a| - 1], b[..|b| - 1]); }
  }

  function Scale(c: real, a: Vector): (r: Vector)
    ensures |r| == |a|
  {
    if a == [] then [] else Scale(c, a[..|a| - 1]) + [c * a[|a| - 1]]
  }

  lemma {:induction false} DotScale(c: real, a: Vector, b: Vector)
    requires |a| == |b|
    ensures Dot(Scale(c, a), b) == c * Dot(a, b)
  {
    if a != [] {
      var n := |a| - 1;
      assert Scale(c, a)[..n] == Scale(c, a[..n]);
      DotScale(c, a[..n], b[..n]);
      Factor(c, a[n], b[n], Dot(a[..n], b[..n]));
    }
  }

  lemma Factor(c: real, x: real, y: real, d: real)
    ensures c * d + (c * x) * y == c * (d + x * y)
  {}

  /** d*d <= p*q with p, q >= 0 bounds the cross term of the next step. */
  lemma CrossTerm(d: real, p: real, q: real, x: real, y: real)
    requires p >= 0.0 && q >= 0.0 && Sq(d) <= p * q
    ensures 2.0 * d * x * y <= p * (y * y) + q * (x * x)
  {
    if p == 0.0 {
      var r := p * q;
      assert r == 0.0;
      if d != 0.0 { SqBelow(d, r); }
      SquareNonNegative(x);
      assert q * (x * x) >= 0.0;
    } else {
      // p times the difference is a square plus a non-negative remainder.
      var u, rest := p * y - d * x, (p * q - d * d) * (x * x);
      SquareNonNegative(u);
      SquareNonNegative(x);
      Remainder(p * q - d * d, x * x);
      var diff := p * (y * y) + q * (x * x) - 2.0 * d * x * y;
      Expand(d, p, q, x, y);
      assert p * diff == u * u + rest;
      Cancel(p, diff);
    }
  }

  lemma Remainder(a: real, b: real)
    requires a >= 0.0 && b >= 0.0
    ensures a * b >= 0.0
  {}

  lemma Cancel(p: real, x: real)
    requires p > 0.0 && p * x >= 0.0
    ensures x >= 0.0
  {
    if x < 0.0 { Negative(p, x); }
  }

  lemma Expand(d: real, p: real, q: real, x: real, y: real)
    ensures p * (p * (y * y) + q * (x * x) - 2.0 * d * x * y)
            == (p * y - d * x) * (p * y - d * x) + (p * q - d * d) * (x * x)
  {}

  lemma Widen(d: real, p: real, q: real, x: real, y: real)
    requires d * d <= p * q && 2.0 * d * x * y <= p * (y * y) + q * (x * x)
    ensures (d + x * y) * (d + x * y) <= (p + x * x) * (q + y * y)
  {
    assert (d + x * y) * (d + x * y) == d * d + 2.0 * d * x * y + (x * y) * (x * y);
    assert (p + x * x) * (q + y * y) == p * q + p * (y * y) + q * (x * x) + (x * x) * (y * y);
    assert (x * y) * (x * y) == (x * x) * (y * y);
  }

  lemma CauchySchwarzStep(d: real, p: real, q: real, x: real, y: real, d1: real, p1: real, q1: real)
    requires p >= 0.0 && q >= 0.0 && Sq(d) <= p * q
    requires d1 == d + x * y && p1 == p + x * x && q1 == q + y * y
    ensures Sq(d1) <= p1 * q1
  {
    CrossTerm(d, p, q, x, y);
    Widen(d, p, q, x, y);
  }

  lemma {:induction false} CauchySchwarz(a: Vector, b: Vector)
    requires |a| == |b|
    ensures Sq(Dot(a, b)) <= NormSq(a) * NormSq(b)
  {
    if a != [] {
      var n := |a| - 1;
      CauchySchwarz(a[..n], b[..n]);
      NormSqNonNegative(a[..n]);
      NormSqNonNegative(b[..n]);
      CauchySchwarzStep(Dot(a[..n], b[..n]), NormSq(a[..n]), NormSq(b[..n]), a[n], b[n],
                        Dot(a, b), NormSq(a), NormSq(b));
    }
  }

  // ----- quotients by approximate norms -----

  lemma QuotientTimes(d: real, m: real)
    requires m > 0.0
    ensures Mul(d / m, m) == d
  {}

  lemma RatioTimes(dot: real, g: real, h: real)
    requires g > 0.0 && h > 0.0
    ensures Mul(Ratio(dot, g, h), Mul(g, h)) == dot
  {
    MulPositive(g, h);
    QuotientTimes(dot, Mul(g, h));
  }

  lemma QuotientOfItself(m: real)
    requires m > 0.0
    ensures m / m == 1.0
  {}

  lemma RatioOfSquare(dot: real, g: real)
    requires g > 0.0 && Sq(g) == dot
    ensures Ratio(dot, g, g) == 1.0
  {
    MulPositive(g, g);
    QuotientOfItself(Mul(g, g));
  }

  function Ratio(dot: real, g: real, h: real): real
    requires g > 0.0 && h > 0.0
  {
    MulPositive(g, h);
    dot / Mul(g, h)
  }

  lemma SquareLess(m: real, s: real)
    requires 0.0 <= m < s
    ensures Sq(m) < Sq(s)
  {
    Positive(s - m, s);
    assert (s - m) * s == s * s - m * s;
    Remainder(s - m, m);
    assert (s - m) * m == s * m - m * m;
  }

  lemma SqOfOpposite(d: real)
    ensures Sq(-d) == Sq(d)
  {}

  lemma BelowRoot(d: real, r: real)
    requires r > 0.0 && Sq(d) <= Sq(r)
    ensures -r <= d <= r
  {
    SqOfOpposite(d);
    if d > r { SquareLess(r, d); }
    if d < -r { SquareLess(r, -d); }
  }

  lemma SqOfProduct(g: real, h: real)
    ensures Sq(Mul(g, h)) == Mul(Sq(g), Sq(h))
  {
    assert (g * h) * (g * h) == (g * g) * (h * h);
  }

  lemma MulMonotone(a: real, b: real, c: real, d: real)
    requires 0.0 < a <= c && 0.0 < b <= d
    ensures a * b <= Mul(c, d)
  {
    Remainder(c - a, d);
    Remainder(d - b, a);
    assert (c - a) * d == c * d - a * d;
    assert (d - b) * a == d * a - b * a;
  }

  lemma RootsDominate(p: real, q: real, g: real, h: real)
    requires p > 0.0 && q > 0.0 && Sq(g) >= p && Sq(h) >= q
    ensures Sq(Mul(g, h)) >= p * q
  {
    SqOfProduct(g, h);
    MulMonotone(p, q, Sq(g), Sq(h));
  }

  lemma QuotientWithin(d: real, r: real)
    requires r > 0.0 && -r <= d <= r
    ensures -1.0 <= d / r <= 1.0
  {}

  lemma RatioWithin(dot: real, p: real, q: real, g: real, h: real)
    requires p > 0.0 && q > 0.0 && Sq(dot) <= p * q
    requires g > 0.0 && h > 0.0 && Sq(g) >= p && Sq(h) >= q
    ensures -1.0 <= Ratio(dot, g, h) <= 1.0
  {
    RootsDominate(p, q, g, h);
    MulPositive(g, h);
    BelowRoot(dot, Mul(g, h));
    QuotientWithin(dot, Mul(g, h));
  }
}
