/**
 * Histogram distances and the all-pairs distance matrix of the advanced
 * mode (src/core/similarity_calculator.py).
 *
 * A histogram is a sequence of bin values; two histograms are compared bin
 * by bin, so they must have the same number of bins (numpy raises on
 * mismatched shapes).  The four metrics are each mapped into a distance in
 * [0, 1], and the three channels of an image signature are combined with
 * the normalised feature weights.
 */
module SimilarityCalculation {
  import opened Models
  import opened RealMath

  /** The `eps` / clipping floor 1e-10 used by the chi-square, Bhattacharyya
      and correlation metrics. */
  const Epsilon: real := 0.0000000001

  // Arithmetic helpers.  Each states one algebraic step on plain reals so
  // that the proofs below only combine them linearly.

  lemma ProductPositive(x: real, y: real)
    requires x > 0.0 && y > 0.0
    ensures x * y > 0.0
  {
  }

  lemma SquareNonNegative(t: real)
    ensures t * t >= 0.0
  {
    if t < 0.0 {
      assert t * t == (-t) * (-t);
    }
  }

  lemma SplitQuotient(x: real, d: real)
    requires d > 0.0
    ensures x * x / d == x * (x / d)
  {
  }

  /** x^2 / d is positive for a non-zero x and a positive d. */
  lemma SignedQuotient(x: real, d: real)
    requires d > 0.0
    ensures x != 0.0 ==> x * (x / d) > 0.0
  {
    if x > 0.0 {
      assert x / d > 0.0;
    } else if x < 0.0 {
      assert x / d < 0.0;
    }
  }

  /** The product of two reals, as a function, so that products of equal
      arguments are recognised as equal. */
  function Product(a: real, b: real): real
  {
    a * b
  }

  lemma Distrib(u: real, s: real, t: real, k: real)
    requires u == s + t
    ensures u * k == s * k + t * k
  {
  }

  lemma DistribLeft(u: real, s: real, t: real, k: real)
    requires u == s + t
    ensures k * u == k * s + k * t
  {
  }

  lemma SquareSum(u: real, s: real, t: real)
    requires u == s + t
    ensures u * u == s * s + 2.0 * (s * t) + t * t
  {
  }

  lemma ProductSquare(a: real, b: real)
    ensures (a * b) * (a * b) == (a * a) * (b * b)
  {
  }

  /** xx q^2 - 2 xy p q + p^2 yy, with the squares and the product of p and
      q given as pp, pq and qq: the sum of (x_i q - p y_i)^2 once expanded. */
  function Cross(xx: real, xy: real, yy: real, pp: real, pq: real, qq: real): real
  {
    xx * qq - 2.0 * (xy * pq) + pp * yy
  }

  /** (a q - p b)^2 expanded is never negative. */
  lemma CrossTerm(a: real, b: real, p: real, q: real)
    ensures Cross(a * a, a * b, b * b, p * p, p * q, q * q) >= 0.0
  {
    var t := a * q - p * b;
    SquareNonNegative(t);
    assert t * t == (a * a) * (q * q) - 2.0 * ((a * b) * (p * q)) + (p * p) * (b * b);
  }

  /** A number whose square is at most den^2 lies in [-den, den]. */
  lemma BoundByRoot(num: real, den: real)
    requires den >= 0.0 && num * num <= den * den
    ensures -den <= num <= den
  {
    if num >= 0.0 {
      SquareLeOrdered(num, den);
    } else {
      assert (-num) * (-num) == num * num;
      SquareLeOrdered(-num, den);
    }
  }

  /** w d lies in [0, w] for a non-negative w and d in [0, 1]. */
  lemma WeightBound(w: real, d: real) returns (p: real)
    requires w >= 0.0 && 0.0 <= d <= 1.0
    ensures p == w * d && 0.0 <= p <= w
  {
    p := w * d;
    assert w * (1.0 - d) >= 0.0;
    assert w - p == w * (1.0 - d);
  }

  predicate NonNegativeBins(h: seq<real>)
  {
    forall i :: 0 <= i < |h| ==> h[i] >= 0.0
  }

  /** A normalised histogram: counts divided by the pixel total. */
  ghost predicate Distribution(h: seq<real>)
  {
    NonNegativeBins(h) && Sum(h) == 1.0
  }

  /** Two histograms every metric can compare. */
  predicate Comparable(h1: seq<real>, h2: seq<real>)
  {
    |h1| == |h2| > 0 && NonNegativeBins(h1) && NonNegativeBins(h2)
  }

  // ---------------------------------------------------------------------
  // Histogram intersection: sum of the bin-wise minima.
  // ---------------------------------------------------------------------

  function HistogramIntersection(h1: seq<real>, h2: seq<real>): real
    requires |h1| == |h2|
    decreases |h1|
  {
    if |h1| == 0 then 0.0
    else HistogramIntersection(h1[..|h1| - 1], h2[..|h2| - 1]) + Min(h1[|h1| - 1], h2[|h2| - 1])
  }

  lemma {:induction false} IntersectionSymmetric(h1: seq<real>, h2: seq<real>)
    requires |h1| == |h2|
    ensures HistogramIntersection(h1, h2) == HistogramIntersection(h2, h1)
    decreases |h1|
  {
    if |h1| > 0 {
      IntersectionSymmetric(h1[..|h1| - 1], h2[..|h2| - 1]);
    }
  }

  /** For non-negative histograms the intersection is non-negative and at
      most the mass of either histogram, so it lies in [0, 1] for two
      normalised ones. */
  lemma {:induction false} IntersectionBounds(h1: seq<real>, h2: seq<real>)
    requires |h1| == |h2| && NonNegativeBins(h1) && NonNegativeBins(h2)
    ensures 0.0 <= HistogramIntersection(h1, h2)
    ensures HistogramIntersection(h1, h2) <= Sum(h1)
    ensures HistogramIntersection(h1, h2) <= Sum(h2)
    decreases |h1|
  {
    if |h1| > 0 {
      IntersectionBounds(h1[..|h1| - 1], h2[..|h2| - 1]);
    }
  }

  /** A histogram meets itself in its whole mass. */
  lemma {:induction false} IntersectionSelf(h: seq<real>)
    ensures HistogramIntersection(h, h) == Sum(h)
    decreases |h|
  {
    if |h| > 0 {
      IntersectionSelf(h[..|h| - 1]);
    }
  }

  // ---------------------------------------------------------------------
  // Chi-square distance: sum of (a - b)^2 / (a + b + eps).
  // ---------------------------------------------------------------------

  function ChiTerm(a: real, b: real): (t: real)
    requires a >= 0.0 && b >= 0.0
    ensures a == b ==> t == 0.0
    ensures a != b ==> t > 0.0
  {
    SplitQuotient(a - b, a + b + Epsilon);
    SignedQuotient(a - b, a + b + Epsilon);
    (a - b) * (a - b) / (a + b + Epsilon)
  }

  function ChiSquareDistance(h1: seq<real>, h2: seq<real>): real
    requires |h1| == |h2| && NonNegativeBins(h1) && NonNegativeBins(h2)
    decreases |h1|
  {
    if |h1| == 0 then 0.0
    else ChiSquareDistance(h1[..|h1| - 1], h2[..|h2| - 1]) + ChiTerm(h1[|h1| - 1], h2[|h2| - 1])
  }

  /** The chi-square distance is non-negative, and it is zero exactly when
      the two histograms are equal. */
  lemma {:induction false} ChiSquareZeroIff(h1: seq<real>, h2: seq<real>)
    requires |h1| == |h2| && NonNegativeBins(h1) && NonNegativeBins(h2)
    ensures ChiSquareDistance(h1, h2) >= 0.0
    ensures ChiSquareDistance(h1, h2) == 0.0 <==> h1 == h2
    decreases |h1|
  {
    var n := |h1|;
    if n > 0 {
      var p1, p2 := h1[..n - 1], h2[..n - 1];
      ChiSquareZeroIff(p1, p2);
      assert h1 == p1 + [h1[n - 1]] && h2 == p2 + [h2[n - 1]];
      if h1 == h2 {
        assert p1 == p2 && h1[n - 1] == h2[n - 1];
      }
    }
  }

  lemma {:induction false} ChiSquareSymmetric(h1: seq<real>, h2: seq<real>)
    requires |h1| == |h2| && NonNegativeBins(h1) && NonNegativeBins(h2)
    ensures ChiSquareDistance(h1, h2) == ChiSquareDistance(h2, h1)
    decreases |h1|
  {
    var n := |h1|;
    if n > 0 {
      ChiSquareSymmetric(h1[..n - 1], h2[..n - 1]);
      var a, b := h1[n - 1], h2[n - 1];
      assert (a - b) * (a - b) == (b - a) * (b - a);
    }
  }

  // ---------------------------------------------------------------------
  // Bhattacharyya distance: -ln of the clipped coefficient sum sqrt(a * b).
  // ---------------------------------------------------------------------

  /** `np.clip(x, lo, hi)`. */
  function Clip(x: real, lo: real, hi: real): real
  {
    Min(Max(x, lo), hi)
  }

  function BhattacharyyaCoefficient(ops: RealOps, h1: seq<real>, h2: seq<real>): real
    requires |h1| == |h2|
    decreases |h1|
  {
    if |h1| == 0 then 0.0
    else BhattacharyyaCoefficient(ops, h1[..|h1| - 1], h2[..|h2| - 1]) + ops.sqrt(Product(h1[|h1| - 1], h2[|h2| - 1]))
  }

  function BhattacharyyaDistance(ops: RealOps, h1: seq<real>, h2: seq<real>): (d: real)
    requires |h1| == |h2|
    ensures Sound(ops) ==> d >= 0.0
  {
    var bc := Clip(BhattacharyyaCoefficient(ops, h1, h2), Epsilon, 1.0);
    assert Epsilon <= bc <= 1.0;
    -ops.ln(bc)
  }

  lemma {:induction false} BhattacharyyaSymmetric(ops: RealOps, h1: seq<real>, h2: seq<real>)
    requires |h1| == |h2|
    ensures BhattacharyyaCoefficient(ops, h1, h2) == BhattacharyyaCoefficient(ops, h2, h1)
    ensures BhattacharyyaDistance(ops, h1, h2) == BhattacharyyaDistance(ops, h2, h1)
    decreases |h1|
  {
    var n := |h1|;
    if n > 0 {
      BhattacharyyaSymmetric(ops, h1[..n - 1], h2[..n - 1]);
      assert Product(h1[n - 1], h2[n - 1]) == Product(h2[n - 1], h1[n - 1]);
    }
  }

  lemma SqrtOfProductSelf(ops: RealOps, x: real)
    requires Sound(ops) && x >= 0.0
    ensures ops.sqrt(Product(x, x)) == x
  {
    SqrtOfSquare(ops, x);
  }

  /** sum sqrt(a * a) over a non-negative histogram is its mass. */
  lemma {:induction false} CoefficientSelf(ops: RealOps, h: seq<real>)
    requires Sound(ops) && NonNegativeBins(h)
    ensures BhattacharyyaCoefficient(ops, h, h) == Sum(h)
    decreases |h|
  {
    if |h| > 0 {
      CoefficientSelf(ops, h[..|h| - 1]);
      SqrtOfProductSelf(ops, h[|h| - 1]);
    }
  }

  /** A normalised histogram is at Bhattacharyya distance 0 from itself. */
  lemma BhattacharyyaSelf(ops: RealOps, h: seq<real>)
    requires Sound(ops) && Distribution(h)
    ensures BhattacharyyaDistance(ops, h, h) == 0.0
  {
    CoefficientSelf(ops, h);
    assert Clip(1.0, Epsilon, 1.0) == 1.0;
  }

  // ---------------------------------------------------------------------
  // Correlation: Pearson correlation of the bin values.
  // ---------------------------------------------------------------------

  /** h - mean, bin by bin. */
  function Centered(h: seq<real>, m: real): (c: seq<real>)
    ensures |c| == |h|
    ensures forall i :: 0 <= i < |h| ==> c[i] == h[i] - m
  {
    seq(|h|, i requires 0 <= i < |h| => h[i] - m)
  }

  /** sum x_i * y_i. */
  function Dot(x: seq<real>, y: seq<real>): real
    requires |x| == |y|
    decreases |x|
  {
    if |x| == 0 then 0.0 else Dot(x[..|x| - 1], y[..|y| - 1]) + x[|x| - 1] * y[|y| - 1]
  }

  lemma {:induction false} DotSymmetric(x: seq<real>, y: seq<real>)
    requires |x| == |y|
    ensures Dot(x, y) == Dot(y, x)
    decreases |x|
  {
    if |x| > 0 {
      DotSymmetric(x[..|x| - 1], y[..|y| - 1]);
      assert x[|x| - 1] * y[|y| - 1] == y[|y| - 1] * x[|x| - 1];
    }
  }

  lemma {:induction false} DotSelfNonNegative(x: seq<real>)
    ensures Dot(x, x) >= 0.0
    decreases |x|
  {
    if |x| > 0 {
      DotSelfNonNegative(x[..|x| - 1]);
      assert x[|x| - 1] * x[|x| - 1] >= 0.0;
    }
  }

  /** sum (x_i q - p y_i)^2, expanded, is never negative. */
  lemma {:induction false} CrossNonNegative(x: seq<real>, y: seq<real>, p: real, q: real)
    requires |x| == |y|
    ensures Cross(Dot(x, x), Dot(x, y), Dot(y, y), p * p, p * q, q * q) >= 0.0
    decreases |x|
  {
    var n := |x|;
    if n > 0 {
      var x', y' := x[..n - 1], y[..n - 1];
      var a, b := x[n - 1], y[n - 1];
      CrossNonNegative(x', y', p, q);
      DotLast(x, x);
      DotLast(x, y);
      DotLast(y, y);
      CrossTerm(a, b, p, q);
      CrossStep(Dot(x', x'), Dot(x', y'), Dot(y', y'), a * a, a * b, b * b, p * p, p * q, q * q, Dot(x, x), Dot(x, y), Dot(y, y));
    }
  }

  /** The last bin's product is the step of the sum. */
  lemma DotLast(x: seq<real>, y: seq<real>)
    requires |x| == |y| > 0
    ensures Dot(x, y) == Dot(x[..|x| - 1], y[..|y| - 1]) + x[|x| - 1] * y[|y| - 1]
  {
  }

  /** One more bin keeps the expanded cross sum non-negative. */
  lemma CrossStep(xx: real, xy: real, yy: real, aa: real, ab: real, bb: real, pp: real, pq: real, qq: real,
                  xx': real, xy': real, yy': real)
    requires Cross(xx, xy, yy, pp, pq, qq) >= 0.0
    requires Cross(aa, ab, bb, pp, pq, qq) >= 0.0
    requires xx' == xx + aa && xy' == xy + ab && yy' == yy + bb
    ensures Cross(xx', xy', yy', pp, pq, qq) >= 0.0
  {
    Distrib(xx', xx, aa, qq);
    Distrib(xy', xy, ab, pq);
    DistribLeft(yy', yy, bb, pp);
  }

  /** One more bin keeps (sum x y)^2 <= (sum x^2)(sum y^2). */
  lemma CauchyStep(xx: real, xy: real, yy: real, a: real, b: real, xx': real, xy': real, yy': real)
    requires Product(xy, xy) <= Product(xx, yy)
    requires Cross(xx, xy, yy, a * a, a * b, b * b) >= 0.0
    requires xx' == xx + a * a && xy' == xy + a * b && yy' == yy + b * b
    ensures Product(xy', xy') <= Product(xx', yy')
  {
    SquareSum(xy', xy, a * b);
    Distrib(xx', xx, a * a, yy');
    DistribLeft(yy', yy, b * b, xx);
    DistribLeft(yy', yy, b * b, a * a);
    ProductSquare(a, b);
  }

  /** The Cauchy-Schwarz inequality (sum x y)^2 <= (sum x^2)(sum y^2). */
  lemma {:induction false} CauchySchwarz(x: seq<real>, y: seq<real>)
    requires |x| == |y|
    ensures Product(Dot(x, y), Dot(x, y)) <= Product(Dot(x, x), Dot(y, y))
    decreases |x|
  {
    var n := |x|;
    if n > 0 {
      var x', y' := x[..n - 1], y[..n - 1];
      var a, b := x[n - 1], y[n - 1];
      CauchySchwarz(x', y');
      CrossNonNegative(x', y', a, b);
      CauchyStep(Dot(x', x'), Dot(x', y'), Dot(y', y'), a, b, Dot(x, x), Dot(x, y), Dot(y, y));
    }
  }

  /** The correlation from its numerator and the two centred square sums:
      0 when the root of their product is below the 1e-10 floor. */
  function CorrelationOf(ops: RealOps, numerator: real, xx: real, yy: real): real
  {
    var denominator := ops.sqrt(xx * yy);
    if denominator < Epsilon then 0.0 else numerator / denominator
  }

  function CorrelationSimilarity(ops: RealOps, h1: seq<real>, h2: seq<real>): real
    requires |h1| == |h2| > 0
  {
    var c1 := Centered(h1, Mean(h1));
    var c2 := Centered(h2, Mean(h2));
    CorrelationOf(ops, Dot(c1, c2), Dot(c1, c1), Dot(c2, c2))
  }

  /** A quotient whose numerator is at most the positive denominator in
      absolute value lies in [-1, 1]. */
  lemma UnitQuotient(num: real, den: real)
    requires den > 0.0 && -den <= num <= den
    ensures -1.0 <= num / den <= 1.0
  {
    var r := num / den;
    assert r * den == num;
    if r > 1.0 {
      ProductPositive(r - 1.0, den);
    }
    if r < -1.0 {
      ProductPositive(-1.0 - r, den);
    }
  }

  lemma CorrelationOfInRange(ops: RealOps, num: real, xx: real, yy: real)
    requires Sound(ops) && xx >= 0.0 && yy >= 0.0 && Product(num, num) <= Product(xx, yy)
    ensures -1.0 <= CorrelationOf(ops, num, xx, yy) <= 1.0
  {
    ScaleLe(xx, yy, 0.0);
    var den := ops.sqrt(xx * yy);
    if den >= Epsilon {
      BoundByRoot(num, den);
      UnitQuotient(num, den);
    }
  }

  /** The correlation lies in [-1, 1]; the degenerate case gives 0. */
  lemma CorrelationInRange(ops: RealOps, h1: seq<real>, h2: seq<real>)
    requires Sound(ops) && |h1| == |h2| > 0
    ensures -1.0 <= CorrelationSimilarity(ops, h1, h2) <= 1.0
  {
    var c1 := Centered(h1, Mean(h1));
    var c2 := Centered(h2, Mean(h2));
    DotSelfNonNegative(c1);
    DotSelfNonNegative(c2);
    CauchySchwarz(c1, c2);
    CorrelationOfInRange(ops, Dot(c1, c2), Dot(c1, c1), Dot(c2, c2));
  }

  lemma CorrelationSymmetric(ops: RealOps, h1: seq<real>, h2: seq<real>)
    requires |h1| == |h2| > 0
    ensures CorrelationSimilarity(ops, h1, h2) == CorrelationSimilarity(ops, h2, h1)
  {
    var c1 := Centered(h1, Mean(h1));
    var c2 := Centered(h2, Mean(h2));
    DotSymmetric(c1, c2);
    assert Dot(c1, c1) * Dot(c2, c2) == Dot(c2, c2) * Dot(c1, c1);
  }

  lemma CorrelationOfSelf(ops: RealOps, xx: real)
    requires Sound(ops) && xx >= 0.0
    ensures CorrelationOf(ops, xx, xx, xx) == if xx < Epsilon then 0.0 else 1.0
  {
    SqrtOfSquare(ops, xx);
  }

  /** A histogram is perfectly correlated with itself unless its centred
      square sum is below the 1e-10 floor, in which case the result is 0. */
  lemma CorrelationSelf(ops: RealOps, h: seq<real>)
    requires Sound(ops) && |h| > 0
    ensures var c := Centered(h, Mean(h));
            CorrelationSimilarity(ops, h, h) == if Dot(c, c) < Epsilon then 0.0 else 1.0
  {
    var c := Centered(h, Mean(h));
    DotSelfNonNegative(c);
    CorrelationOfSelf(ops, Dot(c, c));
  }

  // ---------------------------------------------------------------------
  // One metric, mapped into a distance in [0, 1].
  // ---------------------------------------------------------------------

  function HistogramDistance(ops: RealOps, metric: DistanceMetric, h1: seq<real>, h2: seq<real>): real
    requires Comparable(h1, h2)
  {
    match metric
    case Intersection => 1.0 - HistogramIntersection(h1, h2)
    case ChiSquare => 1.0 - ops.exp(-ChiSquareDistance(h1, h2))
    case Bhattacharyya => 1.0 - ops.exp(-BhattacharyyaDistance(ops, h1, h2))
    case Correlation => (1.0 - CorrelationSimilarity(ops, h1, h2)) / 2.0
  }

  /** Every metric gives a distance in [0, 1] for normalised histograms. */
  lemma HistogramDistanceInUnit(ops: RealOps, metric: DistanceMetric, h1: seq<real>, h2: seq<real>)
    requires Sound(ops) && Comparable(h1, h2) && Distribution(h1) && Distribution(h2)
    ensures 0.0 <= HistogramDistance(ops, metric, h1, h2) <= 1.0
  {
    match metric
    case Intersection => IntersectionBounds(h1, h2);
    case ChiSquare => ChiSquareZeroIff(h1, h2);
    case Bhattacharyya =>
    case Correlation => CorrelationInRange(ops, h1, h2);
  }

  /** Every metric is symmetric in its two histograms. */
  lemma HistogramDistanceSymmetric(ops: RealOps, metric: DistanceMetric, h1: seq<real>, h2: seq<real>)
    requires Comparable(h1, h2)
    ensures HistogramDistance(ops, metric, h1, h2) == HistogramDistance(ops, metric, h2, h1)
  {
    match metric
    case Intersection => IntersectionSymmetric(h1, h2);
    case ChiSquare => ChiSquareSymmetric(h1, h2);
    case Bhattacharyya => BhattacharyyaSymmetric(ops, h1, h2);
    case Correlation => CorrelationSymmetric(ops, h1, h2);
  }

  /** A normalised histogram is at distance 0 from itself, except under the
      correlation metric when its centred square sum is below 1e-10 (a flat
      histogram): the correlation then falls back to 0 and the distance is 0.5. */
  lemma HistogramDistanceSelf(ops: RealOps, metric: DistanceMetric, h: seq<real>)
    requires Sound(ops) && Comparable(h, h) && Distribution(h)
    ensures var c := Centered(h, Mean(h));
            HistogramDistance(ops, metric, h, h)
            == if metric == Correlation && Dot(c, c) < Epsilon then 0.5 else 0.0
  {
    match metric
    case Intersection => IntersectionSelf(h);
    case ChiSquare => ChiSquareZeroIff(h, h);
    case Bhattacharyya => BhattacharyyaSelf(ops, h);
    case Correlation => CorrelationSelf(ops, h);
  }

  // ---------------------------------------------------------------------
  // Whole signatures.
  // ---------------------------------------------------------------------

  predicate NonNegativeWeights(w: FeatureWeights)
  {
    w.hue >= 0.0 && w.lightness >= 0.0 && w.saturation >= 0.0
  }

  /** What `FeatureWeights.normalize` promises: non-negative weights come
      back non-negative and summing to 1. */
  ghost predicate NormalizesWeights(normalize: FeatureWeights -> FeatureWeights)
  {
    forall w :: NonNegativeWeights(w) ==>
      NonNegativeWeights(normalize(w)) && normalize(w).hue + normalize(w).lightness + normalize(w).saturation == 1.0
  }

  /** Two signatures whose three channels can be compared. */
  predicate ComparableFeatures(f1: ImageFeatures, f2: ImageFeatures)
  {
    && Comparable(f1.hueHistogram, f2.hueHistogram)
    && Comparable(f1.lightnessHistogram, f2.lightnessHistogram)
    && Comparable(f1.saturationHistogram, f2.saturationHistogram)
  }

  ghost predicate NormalizedFeatures(f: ImageFeatures)
  {
    Distribution(f.hueHistogram) && Distribution(f.lightnessHistogram) && Distribution(f.saturationHistogram)
  }

  /** The weighted sum of the three channel distances. */
  function WeightedDistance(ops: RealOps, metric: DistanceMetric, w: FeatureWeights,
                            f1: ImageFeatures, f2: ImageFeatures): real
    requires ComparableFeatures(f1, f2)
  {
    Weighted(w, HistogramDistance(ops, metric, f1.hueHistogram, f2.hueHistogram),
             HistogramDistance(ops, metric, f1.lightnessHistogram, f2.lightnessHistogram),
             HistogramDistance(ops, metric, f1.saturationHistogram, f2.saturationHistogram))
  }

  /** The three channel distances combined with the feature weights. */
  function Weighted(w: FeatureWeights, hue: real, lightness: real, saturation: real): real
  {
    w.hue * hue + w.lightness * lightness + w.saturation * saturation
  }

  /** A convex combination of three distances in [0, 1] is in [0, 1]. */
  lemma WeightedDistanceInUnit(ops: RealOps, metric: DistanceMetric, w: FeatureWeights,
                               f1: ImageFeatures, f2: ImageFeatures)
    requires Sound(ops) && ComparableFeatures(f1, f2)
    requires NormalizedFeatures(f1) && NormalizedFeatures(f2)
    requires NonNegativeWeights(w) && w.hue + w.lightness + w.saturation == 1.0
    ensures 0.0 <= WeightedDistance(ops, metric, w, f1, f2) <= 1.0
  {
    var dh := HistogramDistance(ops, metric, f1.hueHistogram, f2.hueHistogram);
    var dl := HistogramDistance(ops, metric, f1.lightnessHistogram, f2.lightnessHistogram);
    var ds := HistogramDistance(ops, metric, f1.saturationHistogram, f2.saturationHistogram);
    HistogramDistanceInUnit(ops, metric, f1.hueHistogram, f2.hueHistogram);
    HistogramDistanceInUnit(ops, metric, f1.lightnessHistogram, f2.lightnessHistogram);
    HistogramDistanceInUnit(ops, metric, f1.saturationHistogram, f2.saturationHistogram);
    ConvexInUnit(w, dh, dl, ds);
  }

  lemma ConvexInUnit(w: FeatureWeights, d1: real, d2: real, d3: real)
    requires NonNegativeWeights(w) && w.hue + w.lightness + w.saturation == 1.0
    requires 0.0 <= d1 <= 1.0 && 0.0 <= d2 <= 1.0 && 0.0 <= d3 <= 1.0
    ensures 0.0 <= Weighted(w, d1, d2, d3) <= 1.0
  {
    var p1 := WeightBound(w.hue, d1);
    var p2 := WeightBound(w.lightness, d2);
    var p3 := WeightBound(w.saturation, d3);
    assert Weighted(w, d1, d2, d3) == p1 + p2 + p3;
  }

  lemma WeightedDistanceSymmetric(ops: RealOps, metric: DistanceMetric, w: FeatureWeights,
                                  f1: ImageFeatures, f2: ImageFeatures)
    requires ComparableFeatures(f1, f2)
    ensures WeightedDistance(ops, metric, w, f1, f2) == WeightedDistance(ops, metric, w, f2, f1)
  {
    ChannelDistancesSymmetric(ops, metric, f1, f2);
  }

  /** The three channel distances do not depend on the order of the images. */
  lemma ChannelDistancesSymmetric(ops: RealOps, metric: DistanceMetric, f1: ImageFeatures, f2: ImageFeatures)
    requires ComparableFeatures(f1, f2)
    ensures HistogramDistance(ops, metric, f1.hueHistogram, f2.hueHistogram)
            == HistogramDistance(ops, metric, f2.hueHistogram, f1.hueHistogram)
    ensures HistogramDistance(ops, metric, f1.lightnessHistogram, f2.lightnessHistogram)
            == HistogramDistance(ops, metric, f2.lightnessHistogram, f1.lightnessHistogram)
    ensures HistogramDistance(ops, metric, f1.saturationHistogram, f2.saturationHistogram)
            == HistogramDistance(ops, metric, f2.saturationHistogram, f1.saturationHistogram)
  {
    HistogramDistanceSymmetric(ops, metric, f1.hueHistogram, f2.hueHistogram);
    HistogramDistanceSymmetric(ops, metric, f1.lightnessHistogram, f2.lightnessHistogram);
    HistogramDistanceSymmetric(ops, metric, f1.saturationHistogram, f2.saturationHistogram);
  }

  /** A table with as many entries in each row as it has rows. */
  predicate Square(t: seq<seq<real>>)
  {
    forall p :: 0 <= p < |t| ==> |t[p]| == |t|
  }

  /** The matrix cell (a, b) once the pairs before (row, col) are copied
      from the table t. */
  function Filled(t: seq<seq<real>>, row: int, col: int, a: int, b: int): real
    requires Square(t) && 0 <= a < |t| && 0 <= b < |t|
  {
    var p := if a < b then a else b;
    var q := if a < b then b else a;
    if p != q && (p < row || (p == row && q < col)) then t[p][q] else 0.0
  }

  /** Copying the pair (i, j) changes the cells (i, j) and (j, i) only. */
  lemma FilledStep(t: seq<seq<real>>, i: int, j: int, a: int, b: int)
    requires Square(t) && 0 <= i < j < |t| && 0 <= a < |t| && 0 <= b < |t|
    ensures Filled(t, i, j + 1, a, b) ==
      if (a == i && b == j) || (a == j && b == i) then t[i][j] else Filled(t, i, j, a, b)
  {
  }

  /**
   * The calculator: feature weights and a default metric, both replaceable.
   * `FeatureWeights.normalize` is passed in as `normalize`; sqrt, exp and
   * ln come in as `ops`.
   */
  class SimilarityCalculator {
    var weights: FeatureWeights
    var metric: DistanceMetric
    const normalize: FeatureWeights -> FeatureWeights
    const ops: RealOps

    /** Without explicit weights the calculator takes the default ones. */
    constructor (weights: Option<FeatureWeights>, metric: DistanceMetric, defaultWeights: FeatureWeights,
                 normalize: FeatureWeights -> FeatureWeights, ops: RealOps)
      ensures weights.Some? ==> this.weights == weights.value
      ensures weights.None? ==> this.weights == defaultWeights
      ensures this.metric == metric
      ensures this.normalize == normalize && this.ops == ops
    {
      this.weights := if weights.Some? then weights.value else defaultWeights;
      this.metric := metric;
      this.normalize := normalize;
      this.ops := ops;
    }

    /** The Bhattacharyya metric is the default. */
    constructor Default(defaultWeights: FeatureWeights, normalize: FeatureWeights -> FeatureWeights, ops: RealOps)
      ensures weights == defaultWeights && metric == Bhattacharyya
      ensures this.normalize == normalize && this.ops == ops
    {
      weights := defaultWeights;
      metric := Bhattacharyya;
      this.normalize := normalize;
      this.ops := ops;
    }

    /** The calculator's conditions for distances in [0, 1]. */
    ghost predicate Calibrated()
      reads this
    {
      Sound(ops) && NormalizesWeights(normalize) && NonNegativeWeights(weights)
    }

    /** The requested metric, or the calculator's own when none is given. */
    function ComputeHistogramDistance(h1: seq<real>, h2: seq<real>, metric: Option<DistanceMetric>): (d: real)
      reads this
      requires Comparable(h1, h2)
      ensures metric.Some? ==> d == HistogramDistance(ops, metric.value, h1, h2)
      ensures metric.None? ==> d == HistogramDistance(ops, this.metric, h1, h2)
      ensures Sound(ops) && Distribution(h1) && Distribution(h2) ==> 0.0 <= d <= 1.0
    {
      var m := if metric.Some? then metric.value else this.metric;
      HistogramDistanceInUnitIf(ops, m, h1, h2);
      HistogramDistance(ops, m, h1, h2)
    }

    /** 1 minus the weighted channel distance, with normalised weights. */
    function ComputeSimilarity(f1: ImageFeatures, f2: ImageFeatures): (s: real)
      reads this
      requires ComparableFeatures(f1, f2)
      ensures Calibrated() && NormalizedFeatures(f1) && NormalizedFeatures(f2) ==> 0.0 <= s <= 1.0
    {
      var w := normalize(weights);
      WeightedDistanceInUnitIf(ops, metric, w, f1, f2);
      1.0 - WeightedDistance(ops, metric, w, f1, f2)
    }

    /** The combined distance is the weighted sum of the channel distances. */
    function ComputeDistance(f1: ImageFeatures, f2: ImageFeatures): (d: real)
      reads this
      requires ComparableFeatures(f1, f2)
      ensures d == WeightedDistance(ops, metric, normalize(weights), f1, f2)
      ensures Calibrated() && NormalizedFeatures(f1) && NormalizedFeatures(f2) ==> 0.0 <= d <= 1.0
    {
      1.0 - ComputeSimilarity(f1, f2)
    }

    /** The distance does not depend on the order of the two images. */
    lemma DistanceSymmetric(f1: ImageFeatures, f2: ImageFeatures)
      requires ComparableFeatures(f1, f2)
      ensures ComparableFeatures(f2, f1)
      ensures ComputeDistance(f1, f2) == ComputeDistance(f2, f1)
    {
      WeightedDistanceSymmetric(ops, metric, normalize(weights), f1, f2);
    }

    /** The distance of every pair p < q, as a table; 0 elsewhere. */
    ghost function DistanceTable(fs: seq<ImageFeatures>): (t: seq<seq<real>>)
      reads this
      requires forall i, j :: 0 <= i < j < |fs| ==> ComparableFeatures(fs[i], fs[j])
      ensures Square(t) && |t| == |fs|
      ensures forall p, q :: 0 <= p < q < |fs| ==> t[p][q] == ComputeDistance(fs[p], fs[q])
    {
      seq(|fs|, p requires 0 <= p < |fs| reads this =>
        seq(|fs|, q requires 0 <= q < |fs| reads this => if p < q then ComputeDistance(fs[p], fs[q]) else 0.0))
    }

    /** An n-by-n symmetric matrix with a zero diagonal; each pair i < j is
        computed once and mirrored. */
    method BuildDistanceMatrix(fs: seq<ImageFeatures>) returns (matrix: array2<real>)
      requires forall i, j :: 0 <= i < j < |fs| ==> ComparableFeatures(fs[i], fs[j])
      ensures matrix.Length0 == |fs| && matrix.Length1 == |fs|
      ensures forall i :: 0 <= i < |fs| ==> matrix[i, i] == 0.0
      ensures forall i, j :: 0 <= i < j < |fs| ==>
        matrix[i, j] == ComputeDistance(fs[i], fs[j]) && matrix[j, i] == matrix[i, j]
      ensures Calibrated() && (forall i :: 0 <= i < |fs| ==> NormalizedFeatures(fs[i])) ==>
        forall i, j :: 0 <= i < |fs| && 0 <= j < |fs| ==> 0.0 <= matrix[i, j] <= 1.0
    {
      var n := |fs|;
      ghost var table := DistanceTable(fs);
      matrix := new real[n, n]((i, j) => 0.0);
      for i := 0 to n
        invariant forall a, b :: 0 <= a < n && 0 <= b < n ==> matrix[a, b] == Filled(table, i, i + 1, a, b)
      {
        for j := i + 1 to n
          invariant forall a, b :: 0 <= a < n && 0 <= b < n ==> matrix[a, b] == Filled(table, i, j, a, b)
        {
          var dist := ComputeDistance(fs[i], fs[j]);
          assert dist == table[i][j];
          matrix[i, j] := dist;
          matrix[j, i] := dist;
          forall a, b | 0 <= a < n && 0 <= b < n
            ensures matrix[a, b] == Filled(table, i, j + 1, a, b)
          {
            FilledStep(table, i, j, a, b);
          }
        }
      }
    }

    /** Replaces the weights and nothing else. */
    method SetWeights(weights: FeatureWeights)
      modifies this
      ensures this.weights == weights && metric == old(metric)
    {
      this.weights := weights;
    }

    /** Replaces the default metric and nothing else. */
    method SetMetric(metric: DistanceMetric)
      modifies this
      ensures this.metric == metric && weights == old(weights)
    {
      this.metric := metric;
    }
  }

  lemma HistogramDistanceInUnitIf(ops: RealOps, metric: DistanceMetric, h1: seq<real>, h2: seq<real>)
    requires Comparable(h1, h2)
    ensures Sound(ops) && Distribution(h1) && Distribution(h2) ==>
      0.0 <= HistogramDistance(ops, metric, h1, h2) <= 1.0
  {
    if Sound(ops) && Distribution(h1) && Distribution(h2) {
      HistogramDistanceInUnit(ops, metric, h1, h2);
    }
  }

  lemma WeightedDistanceInUnitIf(ops: RealOps, metric: DistanceMetric, w: FeatureWeights,
                                 f1: ImageFeatures, f2: ImageFeatures)
    requires ComparableFeatures(f1, f2)
    ensures Sound(ops) && NonNegativeWeights(w) && w.hue + w.lightness + w.saturation == 1.0
            && NormalizedFeatures(f1) && NormalizedFeatures(f2) ==>
      0.0 <= WeightedDistance(ops, metric, w, f1, f2) <= 1.0
  {
    if Sound(ops) && NonNegativeWeights(w) && w.hue + w.lightness + w.saturation == 1.0
       && NormalizedFeatures(f1) && NormalizedFeatures(f2) {
      WeightedDistanceInUnit(ops, metric, w, f1, f2);
    }
  }
}
