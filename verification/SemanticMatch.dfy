/** Semantic deduplication: cosine similarity with a square root taken by twenty
    Newton steps, and the search for the first similar entity. */
module SemanticMatch {
  import opened Wrappers
  import opened Vectors

  function Newton(x: real, n: nat): (g: real)
    requires x > 0.0
    ensures g > 0.0
  {
    if n == 0 then x / 2.0 else var g := Newton(x, n - 1); (g + x / g) / 2.0
  }

  const STEPS: nat := 20

  /** The square root as the code computes it. */
  function Root(x: real): real {
    if x <= 0.0 then 0.0 else Newton(x, STEPS)
  }

  method Sqrt(x: real) returns (guess: real)
    ensures guess == Root(x)
  {
    if x <= 0.0 { return 0.0; }
    guess := x / 2.0;
    for i := 0 to STEPS
      invariant guess == Newton(x, i)
    {
      guess := (guess + x / guess) / 2.0;
    }
  }

  function Cosine(a: Vector, b: Vector): real {
    if |a| != |b| || |a| == 0 || NormSq(a) <= 0.0 || NormSq(b) <= 0.0 then 0.0
    else Ratio(Dot(a, b), Root(NormSq(a)), Root(NormSq(b)))
  }

  method Accumulate(a: Vector, b: Vector) returns (dotProduct: real, normA: real, normB: real)
    requires |a| == |b|
    ensures dotProduct == Dot(a, b) && normA == NormSq(a) && normB == NormSq(b)
  {
    dotProduct, normA, normB := 0.0, 0.0, 0.0;
    for i := 0 to |a|
      invariant dotProduct == Dot(a[..i], b[..i]) && normA == NormSq(a[..i]) && normB == NormSq(b[..i])
    {
      assert a[..i + 1][..i] == a[..i] && b[..i + 1][..i] == b[..i];
      dotProduct := dotProduct + a[i] * b[i];
      normA := normA + a[i] * a[i];
      normB := normB + b[i] * b[i];
    }
    assert a[..|a|] == a && b[..|a|] == b;
  }

  method CosineSimilarity(a: Vector, b: Vector) returns (sim: real)
    ensures sim == Cosine(a, b)
  {
    if |a| != |b| || |a| == 0 { return 0.0; }
    var dotProduct, normA, normB := Accumulate(a, b);
    NormSqNonNegative(a);
    NormSqNonNegative(b);
    if normA == 0.0 || normB == 0.0 { return 0.0; }
    var rootA := Sqrt(normA);
    var rootB := Sqrt(normB);
    sim := Ratio(dotProduct, rootA, rootB);
  }

  // ----- how good the root is -----

  lemma Average(g: real, y: real)
    ensures Sq((g + y) / 2.0) >= g * y
  {
    var m, d := (g + y) / 2.0, (g - y) / 2.0;
    SquareNonNegative(d);
    assert m * m - d * d == g * y;
  }

  /** From the first step on the guess is never below the true root. */
  lemma NewtonFromAbove(x: real, n: nat)
    requires x > 0.0 && n > 0
    ensures Sq(Newton(x, n)) >= x
  {
    var g := Newton(x, n - 1);
    Average(g, x / g);
    assert g * (x / g) == x;
  }

  function PowerOfTwo(n: nat): (p: real)
    ensures p >= 1.0
  {
    if n == 0 then 1.0 else 2.0 * PowerOfTwo(n - 1)
  }

  lemma NonZeroProduct(p: real, d: real)
    requires p > 0.0 && d != 0.0
    ensures p * d != 0.0
  {
    if d > 0.0 { Positive(p, d); } else { Negative(p, d); }
  }

  lemma UniqueQuotient(x: real, y: real, t: real)
    requires y > 0.0 && t * y == x
    ensures x / y == t
  {
    var d := x / y - t;
    assert (x / y) * y == x;
    assert y * d == 0.0;
    if d != 0.0 { NonZeroProduct(y, d); }
  }

  lemma FirstStep(s: real, x: real)
    requires s > 0.0 && x == s * s && x > 0.0
    ensures Newton(x, 1) - s == Sq(s / 2.0 - 1.0)
  {
    assert Newton(x, 0) == x / 2.0;
    UniqueQuotient(x, x / 2.0, 2.0);
    assert Newton(x, 1) == (x / 2.0 + 2.0) / 2.0;
  }

  lemma ErrorHalves(s: real, g: real)
    requires g >= s > 0.0
    ensures (g + s * s / g) / 2.0 >= s
    ensures (g + s * s / g) / 2.0 - s <= (g - s) / 2.0
  {
    var y := s * s / g;
    assert g * y == s * s;
    if y > s { ProductGreater(g, y, s); }
    if (g + y) / 2.0 < s {
      Average(g, y);
      SquareLess((g + y) / 2.0, s);
    }
  }

  lemma ProductGreater(g: real, y: real, s: real)
    requires g >= s > 0.0 && y > s
    ensures g * y > s * s
  {
    assert g * y > g * s >= s * s;
  }

  /** For x = s * s the guess after n + 1 steps exceeds the true root s by at most
      (s/2 - 1)^2 / 2^n. */
  lemma {:induction false} NewtonError(s: real, x: real, n: nat)
    requires s > 0.0 && x == s * s && x > 0.0
    ensures 0.0 <= Newton(x, n + 1) - s
    ensures Mul(Newton(x, n + 1) - s, PowerOfTwo(n)) <= Sq(s / 2.0 - 1.0)
  {
    if n == 0 {
      FirstStep(s, x);
      SquareNonNegative(s / 2.0 - 1.0);
    } else {
      NewtonError(s, x, n - 1);
      var g := Newton(x, n);
      ErrorHalves(s, g);
      HalveUnder(Newton(x, n + 1) - s, g - s, PowerOfTwo(n - 1));
    }
  }

  lemma HalveUnder(e: real, f: real, p: real)
    requires e <= f / 2.0 && p > 0.0
    ensures Mul(e, 2.0 * p) <= Mul(f, p)
  {
    Remainder(f / 2.0 - e, p);
  }

  /** Each step at most halves the guess. */
  lemma {:induction false} NewtonFromBelow(x: real, n: nat)
    requires x > 0.0
    ensures Mul(Newton(x, n + 1), PowerOfTwo(n)) >= 1.0 + x / 4.0
  {
    if n == 0 {
      FirstGuess(x);
    } else {
      NewtonFromBelow(x, n - 1);
      HalfStep(x, Newton(x, n));
      DoubleOver(Newton(x, n + 1), Newton(x, n), PowerOfTwo(n - 1));
    }
  }

  lemma FirstGuess(x: real)
    requires x > 0.0
    ensures Newton(x, 1) == 1.0 + x / 4.0
  {
    UniqueQuotient(x, x / 2.0, 2.0);
    assert Newton(x, 0) == x / 2.0;
  }

  lemma HalfStep(x: real, g: real)
    requires x > 0.0 && g > 0.0
    ensures (g + x / g) / 2.0 >= g / 2.0
  {}

  lemma DoubleOver(e: real, f: real, p: real)
    requires e >= f / 2.0 && p > 0.0
    ensures Mul(e, 2.0 * p) >= Mul(f, p)
  {
    Remainder(e - f / 2.0, p);
  }

  // ----- what a similarity above 0.9 means -----

  /** The similarity times the two computed roots is the dot product, if both
      vectors have the same length and none is zero. */
  lemma CosineTimesRoots(a: Vector, b: Vector)
    ensures if |a| == |b| && Dot(a, a) > 0.0 && Dot(b, b) > 0.0
      then Mul(Cosine(a, b), Mul(Root(Dot(a, a)), Root(Dot(b, b)))) == Dot(a, b)
      else Cosine(a, b) == 0.0
  {
    if |a| == |b| && NormSq(a) > 0.0 && NormSq(b) > 0.0 {
      RatioTimes(Dot(a, b), Root(NormSq(a)), Root(NormSq(b)));
    }
  }

  /** Similarities lie in [-1, 1] although the root is only approximate. */
  lemma CosineWithin(a: Vector, b: Vector)
    ensures -1.0 <= Cosine(a, b) <= 1.0
  {
    if |a| == |b| && NormSq(a) > 0.0 && NormSq(b) > 0.0 {
      CauchySchwarz(a, b);
      NewtonFromAbove(NormSq(a), STEPS);
      NewtonFromAbove(NormSq(b), STEPS);
      RatioWithin(Dot(a, b), NormSq(a), NormSq(b), Root(NormSq(a)), Root(NormSq(b)));
    }
  }

  lemma QuotientAbove(d: real, r: real)
    requires r > 0.0
    ensures d / r > 0.9 <==> d > 0.9 * r
  {
    var t := d / r;
    assert t * r == d;
    if t > 0.9 { Positive(t - 0.9, r); }
    if !(t > 0.9) { Remainder(0.9 - t, r); }
  }

  lemma RatioAbove(dot: real, g: real, h: real)
    requires g > 0.0 && h > 0.0
    ensures Ratio(dot, g, h) > 0.9 <==> dot > 0.9 * Mul(g, h)
  {
    MulPositive(g, h);
    QuotientAbove(dot, Mul(g, h));
  }

  lemma MatchSquared(dot: real, p: real, q: real, g: real, h: real)
    requires p > 0.0 && q > 0.0 && g > 0.0 && h > 0.0 && Sq(g) >= p && Sq(h) >= q
    requires Ratio(dot, g, h) > 0.9
    ensures dot > 0.0 && Sq(dot) > 0.81 * (p * q)
  {
    RatioAbove(dot, g, h);
    RootsDominate(p, q, g, h);
    MulPositive(g, h);
    ScaledSquare(Mul(g, h), dot);
  }

  lemma ScaledSquare(r: real, d: real)
    requires r > 0.0 && d > 0.9 * r
    ensures Sq(d) > 0.81 * Sq(r)
  {
    SquareLess(0.9 * r, d);
    assert (0.9 * r) * (0.9 * r) == 0.81 * (r * r);
  }

  /** A similarity above 0.9 is never a false alarm: the exact cosine is above
      0.9 too, stated without roots. */
  lemma MatchIsGenuine(a: Vector, b: Vector)
    requires Cosine(a, b) > 0.9
    ensures |a| == |b| && Dot(a, b) > 0.0
    ensures Sq(Dot(a, b)) > 0.81 * (NormSq(a) * NormSq(b))
  {
    NewtonFromAbove(NormSq(a), STEPS);
    NewtonFromAbove(NormSq(b), STEPS);
    MatchSquared(Dot(a, b), NormSq(a), NormSq(b), Root(NormSq(a)), Root(NormSq(b)));
  }

  /** A vector matches itself exactly when its squared norm exceeds 0.9 times the
      square of its computed root. */
  lemma SelfMatch(a: Vector)
    requires NormSq(a) > 0.0
    ensures Cosine(a, a) > 0.9 <==> NormSq(a) > 0.9 * Sq(Root(NormSq(a)))
  {
    RatioAbove(NormSq(a), Root(NormSq(a)), Root(NormSq(a)));
  }

  // ----- which norms match themselves -----

  /** The ratio (g - s) / (g + s) of the guess to the true root s, before the first
      step. Each step squares it. */
  function FirstRatio(s: real): real
    requires s > 0.0
  {
    (s - 2.0) / (s + 2.0)
  }

  function Iter(q: real, n: nat): real {
    if n == 0 then q else Sq(Iter(q, n - 1))
  }

  predicate RatioMatches(r: real) {
    Sq(r) + 1.0 > 38.0 * r
  }

  /** The exact condition on the norm, after n steps: the ratio r has
      r^2 + 1 > 38 r, that is r < 19 - 6 * sqrt(10). */
  predicate NormMatches(s: real, n: nat)
    requires s > 0.0
  {
    RatioMatches(Iter(FirstRatio(s), n))
  }

  lemma StartRatio(s: real, x: real)
    requires s > 0.0 && x == Sq(s) && x > 0.0
    ensures Newton(x, 0) - s == Mul(FirstRatio(s), Newton(x, 0) + s)
  {
    var q := FirstRatio(s);
    assert q * (s + 2.0) == s - 2.0;
    assert q * (x / 2.0 + s) == (q * (s + 2.0)) * (s / 2.0);
  }

  /** h is the next guess after g. */
  lemma StepSquares(s: real, g: real, h: real, r: real)
    requires s > 0.0 && g > 0.0 && h > 0.0 && 2.0 * Mul(g, h) == Sq(g) + Sq(s) && g - s == Mul(r, g + s)
    ensures h - s == Mul(Sq(r), h + s)
  {
    assert 2.0 * g * (h - s) == Sq(g - s);
    assert 2.0 * g * (h + s) == Sq(g + s);
    SqOfProduct(r, g + s);
    assert Sq(g - s) == Mul(Sq(r), Sq(g + s));
    var d := (h - s) - Sq(r) * (h + s);
    assert 2.0 * g * d == 2.0 * g * (h - s) - Sq(r) * (2.0 * g * (h + s)) == 0.0;
    if d != 0.0 { NonZeroProduct(2.0 * g, d); }
  }

  lemma NextGuess(x: real, n: nat)
    requires x > 0.0 && n > 0
    ensures 2.0 * Mul(Newton(x, n - 1), Newton(x, n)) == Sq(Newton(x, n - 1)) + x
  {
    var g := Newton(x, n - 1);
    assert g * (x / g) == x;
  }

  lemma {:induction false} RatioSquares(s: real, x: real, n: nat)
    requires s > 0.0 && x == Sq(s) && x > 0.0
    ensures Newton(x, n) - s == Mul(Iter(FirstRatio(s), n), Newton(x, n) + s)
  {
    if n == 0 {
      StartRatio(s, x);
    } else {
      RatioSquares(s, x, n - 1);
      NextGuess(x, n);
      StepSquares(s, Newton(x, n - 1), Newton(x, n), Iter(FirstRatio(s), n - 1));
    }
  }

  lemma FirstRatioWithin(s: real)
    requires s > 0.0
    ensures -1.0 < FirstRatio(s) < 1.0
  {
    var q := FirstRatio(s);
    assert q * (s + 2.0) == s - 2.0;
    if q >= 1.0 { Remainder(q - 1.0, s + 2.0); }
    if q <= -1.0 { Remainder(-1.0 - q, s + 2.0); }
  }

  lemma SqWithin(q: real)
    requires -1.0 < q < 1.0
    ensures 0.0 <= Sq(q) < 1.0
  {
    SquareNonNegative(q);
    Positive(1.0 - q, 1.0 + q);
  }

  lemma {:induction false} IterWithin(q: real, n: nat)
    requires -1.0 < q < 1.0 && n > 0
    ensures 0.0 <= Iter(q, n) < 1.0
  {
    if n > 1 { IterWithin(q, n - 1); }
    SqWithin(Iter(q, n - 1));
  }

  /** For g with g * (1 - r) == s * (1 + r), the test on g is a test on r. */
  lemma RootTest(s: real, g: real, r: real)
    requires s > 0.0 && g > 0.0 && 0.0 <= r < 1.0 && g - s == Mul(r, g + s)
    ensures Sq(s) > 0.9 * Sq(g) <==> RatioMatches(r)
  {
    assert g * (1.0 - r) == s * (1.0 + r);
    SqOfProduct(g, 1.0 - r);
    SqOfProduct(s, 1.0 + r);
    var diff := 10.0 * Sq(s) - 9.0 * Sq(g);
    assert Mul(Sq(g), Sq(1.0 - r)) == Mul(Sq(s), Sq(1.0 + r));
    SquareExpansions(r);
    ScaledTest(Sq(s), Sq(g), r);
    SqPositive(1.0 - r);
    SqPositive(s);
    SignOfProducts(Sq(1.0 - r), diff, Sq(s), Sq(r) + 1.0 - 38.0 * r);
  }

  lemma SquareExpansions(r: real)
    ensures Sq(1.0 - r) == 1.0 - 2.0 * r + Sq(r) && Sq(1.0 + r) == 1.0 + 2.0 * r + Sq(r)
  {}

  lemma ScaledTest(x: real, y: real, r: real)
    requires Mul(y, Sq(1.0 - r)) == Mul(x, Sq(1.0 + r))
    ensures Mul(Sq(1.0 - r), 10.0 * x - 9.0 * y) == Mul(x, Sq(r) + 1.0 - 38.0 * r)
  {
    SquareExpansions(r);
    var p, m := Sq(1.0 + r), Sq(1.0 - r);
    assert Mul(m, 10.0 * x - 9.0 * y) == 10.0 * Mul(x, m) - 9.0 * Mul(y, m);
    assert 10.0 * Mul(x, m) - 9.0 * Mul(x, p) == Mul(x, 10.0 * m - 9.0 * p);
  }

  lemma SignOfProducts(p: real, x: real, q: real, y: real)
    requires p > 0.0 && q > 0.0 && Mul(p, x) == Mul(q, y)
    ensures x > 0.0 <==> y > 0.0
  {
    if x > 0.0 { MulPositive(p, x); }
    if y > 0.0 { MulPositive(q, y); }
    if x <= 0.0 { Remainder(p, -x); }
    if y <= 0.0 { Remainder(q, -y); }
  }

  /** A vector of norm s matches itself exactly when its norm meets the condition,
      which twenty squarings of (s - 2) / (s + 2) decide. */
  lemma SelfMatchExactly(a: Vector, s: real)
    requires s > 0.0 && NormSq(a) == Sq(s)
    ensures Cosine(a, a) > 0.9 <==> NormMatches(s, STEPS)
  {
    SqPositive(s);
    var x := NormSq(a);
    SelfMatch(a);
    RatioSquares(s, x, STEPS);
    FirstRatioWithin(s);
    IterWithin(FirstRatio(s), STEPS);
    RootTest(s, Root(x), Iter(FirstRatio(s), STEPS));
  }

  // The norms that match form an interval around 2, symmetric under s -> 4 / s.

  function Abs(x: real): real { if x < 0.0 then -x else x }

  lemma SqMonotone(p: real, q: real)
    requires 0.0 <= p <= q
    ensures Sq(p) <= Sq(q)
  {
    if p < q { SquareLess(p, q); }
  }

  lemma {:induction false} IterMonotone(p: real, q: real, n: nat)
    requires Abs(p) <= Abs(q) && n > 0
    ensures 0.0 <= Iter(p, n) <= Iter(q, n)
  {
    if n == 1 {
      SqOfOpposite(p);
      SqOfOpposite(q);
      SqMonotone(Abs(p), Abs(q));
      SquareNonNegative(p);
    } else {
      IterMonotone(p, q, n - 1);
      SqMonotone(Iter(p, n - 1), Iter(q, n - 1));
      SquareNonNegative(Iter(p, n - 1));
    }
  }

  lemma SmallerRatioMatches(r: real, t: real)
    requires 0.0 <= r <= t < 1.0 && RatioMatches(t)
    ensures RatioMatches(r)
  {
    Remainder(t - r, 38.0 - t - r);
    assert (t - r) * (38.0 - t - r) == 38.0 * t - 38.0 * r - (t * t - r * r);
  }

  lemma CloserNormMatches(s: real, t: real, n: nat)
    requires s > 0.0 && t > 0.0 && n > 0 && Abs(FirstRatio(s)) <= Abs(FirstRatio(t)) && NormMatches(t, n)
    ensures NormMatches(s, n)
  {
    FirstRatioWithin(t);
    IterWithin(FirstRatio(t), n);
    IterMonotone(FirstRatio(s), FirstRatio(t), n);
    SmallerRatioMatches(Iter(FirstRatio(s), n), Iter(FirstRatio(t), n));
  }

  lemma FirstRatioGrows(s: real, t: real)
    requires 0.0 < s <= t
    ensures FirstRatio(s) <= FirstRatio(t)
  {
    var u, v := 1.0 - FirstRatio(s), 1.0 - FirstRatio(t);
    assert u * (s + 2.0) == 4.0 == v * (t + 2.0);
    FirstRatioWithin(s);
    LessOfMore(u, s + 2.0, v, t + 2.0);
  }

  lemma LessOfMore(u: real, a: real, v: real, b: real)
    requires 0.0 <= u && 0.0 < a <= b && u * a == v * b
    ensures v <= u
  {
    Remainder(u, b - a);
    if v > u { Positive(v - u, b); }
  }

  /** Whatever lies between two matching norms matches. */
  lemma MatchingNormsAreAnInterval(low: real, s: real, high: real, n: nat)
    requires 0.0 < low <= s <= high && n > 0 && NormMatches(low, n) && NormMatches(high, n)
    ensures NormMatches(s, n)
  {
    FirstRatioGrows(low, s);
    FirstRatioGrows(s, high);
    if FirstRatio(s) >= 0.0 { CloserNormMatches(s, high, n); } else { CloserNormMatches(s, low, n); }
  }

  lemma {:induction false} IterShrinks(q: real, e: real, n: nat)
    requires 0.0 <= q <= 1.0 - e && 0.0 <= e <= 1.0
    ensures 0.0 <= Iter(q, n) && Mul(Iter(q, n), 1.0 + Mul(PowerOfTwo(n), e)) <= 1.0
  {
    if n == 0 {
      Remainder(1.0 - e - q, 1.0 + e);
      SquareNonNegative(e);
      assert (1.0 - e) * (1.0 + e) == 1.0 - e * e;
      OneTimes(e);
    } else {
      IterShrinks(q, e, n - 1);
      SquareNonNegative(Iter(q, n - 1));
      TwiceTimes(PowerOfTwo(n - 1), e);
      ShrinkStep(Iter(q, n - 1), Mul(PowerOfTwo(n - 1), e));
    }
  }

  lemma OneTimes(e: real)
    ensures Mul(1.0, e) == e
  {}

  lemma TwiceTimes(p: real, e: real)
    requires p >= 0.0 && e >= 0.0
    ensures Mul(2.0 * p, e) == 2.0 * Mul(p, e) && Mul(p, e) >= 0.0
  {
    Remainder(p, e);
  }

  lemma ShrinkStep(r: real, y: real)
    requires 0.0 <= r && 0.0 <= y && Mul(r, 1.0 + y) <= 1.0
    ensures Mul(Sq(r), 1.0 + 2.0 * y) <= 1.0
  {
    SqOfProduct(r, 1.0 + y);
    Remainder(r, 1.0 + y);
    SqMonotone(Mul(r, 1.0 + y), 1.0);
    SquareNonNegative(r);
    SquareNonNegative(y);
    Remainder(Sq(r), Sq(y));
    assert Sq(1.0 + y) == 1.0 + 2.0 * y + Sq(y);
  }

  lemma {:induction false} IterStays(q: real, e: real, n: nat)
    requires 1.0 - e <= q && PowerOfTwo(n) * e <= 1.0 && 0.0 <= e
    ensures 1.0 - PowerOfTwo(n) * e <= Iter(q, n)
  {
    if n > 0 {
      Remainder(PowerOfTwo(n - 1), e);
      IterStays(q, e, n - 1);
      var y := PowerOfTwo(n - 1) * e;
      SqMonotone(1.0 - y, Iter(q, n - 1));
      SquareNonNegative(y);
      assert Sq(1.0 - y) == 1.0 - 2.0 * y + Sq(y);
    }
  }

  lemma SquareUnder(r: real, p: real, bound: real)
    requires 0.0 <= r <= p && p * p <= bound
    ensures 0.0 <= Sq(r) <= bound
  {
    SqMonotone(r, p);
    SquareNonNegative(r);
  }

  lemma SquareOver(r: real, p: real, bound: real)
    requires 0.0 <= p <= r && bound <= p * p
    ensures bound <= Sq(r)
  {
    SqMonotone(p, r);
  }

  lemma FourSquaringsUnder(q: real, n: nat)
    requires 0.0 <= Iter(q, n) <= 0.7924
    ensures 0.0 <= Iter(q, n + 4) <= 0.0242
  {
    SquareUnder(Iter(q, n), 0.7924, 0.6279);
    SquareUnder(Iter(q, n + 1), 0.6279, 0.3943);
    SquareUnder(Iter(q, n + 2), 0.3943, 0.1555);
    SquareUnder(Iter(q, n + 3), 0.1555, 0.0242);
  }

  lemma SixSquaringsOver(q: real, n: nat)
    requires 0.9453 <= Iter(q, n)
    ensures 0.0271 <= Iter(q, n + 6)
  {
    SquareOver(Iter(q, n), 0.9453, 0.8935);
    SquareOver(Iter(q, n + 1), 0.8935, 0.7983);
    SquareOver(Iter(q, n + 2), 0.7983, 0.6372);
    SquareOver(Iter(q, n + 3), 0.6372, 0.406);
    SquareOver(Iter(q, n + 4), 0.406, 0.1648);
    SquareOver(Iter(q, n + 5), 0.1648, 0.0271);
  }

  lemma PowersOfTwo(n: nat)
    requires n == 14
    ensures PowerOfTwo(n) == 16384.0 && PowerOfTwo(n + 2) == 65536.0
  {
    assert PowerOfTwo(4) == 16.0;
    assert PowerOfTwo(8) == 256.0;
    assert PowerOfTwo(12) == 4096.0;
  }

  lemma SmallQuotient(r: real, y: real)
    requires 0.0 <= r && y >= 0.262 && Mul(r, 1.0 + y) <= 1.0
    ensures r <= 0.7924
  {
    Remainder(r, y - 0.262);
    assert r * (y - 0.262) == r * (1.0 + y) - 1.262 * r;
  }

  lemma SmallRatioMatches(q: real, n: nat)
    requires 0.0 <= q <= 1.0 - 0.000003999 && n == 20
    ensures RatioMatches(Iter(q, n))
  {
    PowersOfTwo(14);
    IterShrinks(q, 0.000003999, n - 4);
    SmallQuotient(Iter(q, n - 4), Mul(PowerOfTwo(n - 4), 0.000003999));
    FourSquaringsUnder(q, n - 4);
    SmallerRatioMatches(Iter(q, n), 0.0242);
  }

  lemma LargeRatioMisses(q: real, n: nat)
    requires 1.0 - 0.0000033334 <= q < 1.0 && n == 20
    ensures !RatioMatches(Iter(q, n))
  {
    PowersOfTwo(14);
    IterStays(q, 0.0000033334, n - 6);
    SixSquaringsOver(q, n - 6);
    IterWithin(q, n);
    if RatioMatches(Iter(q, n)) { SmallerRatioMatches(0.0271, Iter(q, n)); }
  }

  lemma LandmarkRatios(s: real, t: real)
    requires s == 1000000.0 && t == 1200000.0
    ensures 0.0 <= FirstRatio(s) <= 1.0 - 0.000003999
    ensures 1.0 - 0.0000033334 <= FirstRatio(t) < 1.0
  {
    var p, q := FirstRatio(s), FirstRatio(t);
    assert p * 1000002.0 == 999998.0 && q * 1200002.0 == 1199998.0;
  }

  lemma MirrorRatio(s: real, t: real)
    requires s > 0.0 && t > 0.0 && s * t == 4.0
    ensures FirstRatio(t) == -FirstRatio(s)
  {
    var p, q := FirstRatio(s), FirstRatio(t);
    assert p * (s + 2.0) == s - 2.0 && q * (t + 2.0) == t - 2.0;
    assert (t - 2.0) * (s + 2.0) + (s - 2.0) * (t + 2.0) == 2.0 * (s * t) - 8.0;
    var d := p + q;
    assert (s + 2.0) * (t + 2.0) * d == (p * (s + 2.0)) * (t + 2.0) + (q * (t + 2.0)) * (s + 2.0);
    Positive(s + 2.0, t + 2.0);
    if d != 0.0 { NonZeroProduct((s + 2.0) * (t + 2.0), d); }
  }

  lemma NormsInside(low: real, s: real, high: real, n: nat)
    requires high == 1000000.0 && 0.0 < low && low * high == 4.0 && low <= s <= high && n == 20
    ensures NormMatches(s, n)
  {
    LandmarkRatios(high, 1200000.0);
    SmallRatioMatches(FirstRatio(high), n);
    MirrorRatio(high, low);
    CloserNormMatches(low, high, n);
    MatchingNormsAreAnInterval(low, s, high, n);
  }

  lemma NormsOutside(low: real, s: real, high: real, n: nat)
    requires high == 1200000.0 && 0.0 < low && low * high == 4.0 && (0.0 < s <= low || high <= s) && n == 20
    ensures !NormMatches(s, n)
  {
    HighNormMisses(high, n);
    OutsideRatio(low, s, high);
    FartherNormMisses(high, s, n);
  }

  lemma HighNormMisses(high: real, n: nat)
    requires high == 1200000.0 && n == 20
    ensures 0.0 <= FirstRatio(high) && !NormMatches(high, n)
  {
    LandmarkRatios(1000000.0, high);
    LargeRatioMisses(FirstRatio(high), n);
  }

  lemma OutsideRatio(low: real, s: real, high: real)
    requires 0.0 < low && 0.0 < high && low * high == 4.0 && (0.0 < s <= low || high <= s)
    requires 0.0 <= FirstRatio(high)
    ensures Abs(FirstRatio(high)) <= Abs(FirstRatio(s))
  {
    MirrorRatio(high, low);
    if s <= low { FirstRatioGrows(s, low); } else { FirstRatioGrows(high, s); }
  }

  lemma FartherNormMisses(s: real, t: real, n: nat)
    requires s > 0.0 && t > 0.0 && n > 0 && Abs(FirstRatio(s)) <= Abs(FirstRatio(t)) && !NormMatches(s, n)
    ensures !NormMatches(t, n)
  {
    if NormMatches(t, n) { CloserNormMatches(s, t, n); }
  }

  /** In numbers: norms from 1/250000 to 1000000 match themselves; norms from
      1200000 up or 1/300000 down do not. */
  lemma MatchingNorms(a: Vector, s: real)
    requires s > 0.0 && NormSq(a) == Sq(s)
    ensures 1.0 <= 250000.0 * s && s <= 1000000.0 ==> Cosine(a, a) > 0.9
    ensures 300000.0 * s <= 1.0 || 1200000.0 <= s ==> Cosine(a, a) <= 0.9
  {
    SelfMatchExactly(a, s);
    if 1.0 <= 250000.0 * s && s <= 1000000.0 { NormsInside(0.000004, s, 1000000.0, STEPS); }
    if 300000.0 * s <= 1.0 || 1200000.0 <= s { NormsOutside(4.0 / 1200000.0, s, 1200000.0, STEPS); }
  }

  /** Two identical embeddings that are not recognised as similar. */
  lemma LargeVectorMissesItself(a: Vector)
    requires a == [1200000.0]
    ensures Cosine(a, a) <= 0.9
  {
    assert a[..0] == [] && Dot(a, a) == Dot(a[..0], a[..0]) + a[0] * a[0];
    MatchingNorms(a, 1200000.0);
  }

  // ----- finding a similar entity -----

  /** An existing entity: its name and what the embedder gives for it, if anything. */
  datatype Candidate = Candidate(name: string, embedding: Option<Vector>)

  predicate Similar(query: Vector, c: Candidate) {
    c.embedding.Some? && Cosine(query, c.embedding.value) > 0.9
  }

  /** The first similar candidate; nothing when the new name has no embedding. */
  method FindSemanticallySimilar(query: Option<Vector>, existing: seq<Candidate>) returns (hit: Option<nat>)
    ensures hit.Some? ==>
      && query.Some? && hit.value < |existing| && Similar(query.value, existing[hit.value])
      && forall j :: 0 <= j < hit.value ==> !Similar(query.value, existing[j])
    ensures hit.None? && query.Some? ==> forall j :: 0 <= j < |existing| ==> !Similar(query.value, existing[j])
  {
    if query.None? { return None; }
    for i := 0 to |existing|
      invariant forall j :: 0 <= j < i ==> !Similar(query.value, existing[j])
    {
      if existing[i].embedding.None? { continue; }
      var sim := CosineSimilarity(query.value, existing[i].embedding.value);
      if sim > 0.9 { return Some(i); }
    }
    return None;
  }
}
