/**
 * The lightness-histogram analyser: the tonal class, the weighted
 * statistics and the dynamic range of a (normalised) lightness histogram
 * whose bins split 0..256 evenly.
 *
 * Every operation divides 256 by the number of bins first, so an empty
 * histogram raises ZeroDivisionError in the source; here that is a Failure.
 */
module HistogramAnalysis {
  import opened Models
  import opened RealMath
  import FeatureExtraction

  /** The analyser's two thresholds on the mean lightness. */
  datatype Analyzer = Analyzer(highKeyThreshold: real, lowKeyThreshold: real)

  const DefaultAnalyzer: Analyzer := Analyzer(170.0, 85.0)

  const DivisionByZero: string := "ZeroDivisionError"

  // ---------------------------------------------------------------------
  // Bins

  /** `256 / bins`. */
  function BinWidth(bins: nat): (w: real)
    requires bins > 0
    ensures w > 0.0 && w * bins as real == 256.0
  {
    var w := 256.0 / bins as real;
    assert w * bins as real == 256.0;
    w
  }

  /** `np.arange(bins) * (256 / bins)`: the lower edge of bin i. */
  function BinValue(i: nat, bins: nat): (v: real)
    requires bins > 0
    ensures v >= 0.0
  {
    var w := BinWidth(bins);
    ScaleLe(w, i as real, 0.0);
    i as real * w
  }

  /** `np.arange(bins) * (256 / bins) + (256 / bins / 2)`: the centre of bin i. */
  function BinCenter(i: nat, bins: nat): real
    requires bins > 0
  {
    BinValue(i, bins) + BinWidth(bins) / 2.0
  }

  function BinCenters(bins: nat): (cs: seq<real>)
    requires bins > 0
    ensures |cs| == bins && forall i :: 0 <= i < bins ==> cs[i] == BinCenter(i, bins)
  {
    seq(bins, i requires 0 <= i < bins => BinCenter(i, bins))
  }

  /** Bin edges increase with the index, and the last bin ends at 256. */
  lemma BinValueOrder(i: nat, j: nat, bins: nat)
    requires bins > 0 && i <= j
    ensures BinValue(i, bins) <= BinValue(j, bins)
    ensures j < bins ==> BinValue(j, bins) <= 256.0 - BinWidth(bins)
  {
    var w := BinWidth(bins);
    EdgeOrder(w, bins as real, i as real, j as real);
  }

  /** The arithmetic behind BinValueOrder, on plain reals. */
  lemma EdgeOrder(w: real, b: real, x: real, y: real)
    requires w > 0.0 && w * b == 256.0 && x <= y
    ensures x * w <= y * w
    ensures y <= b - 1.0 ==> y * w <= 256.0 - w
  {
    ScaleLe(w, y, x);
    if y <= b - 1.0 {
      ScaleLe(w, b - 1.0, y);
      DropOne(b, w);
    }
  }

  lemma DropOne(b: real, w: real)
    ensures w * (b - 1.0) == b * w - w
  {
  }

  /** Every bin centre lies strictly inside 0..256, and the centres
      increase with the index. */
  lemma BinCenterFacts(i: nat, j: nat, bins: nat)
    requires bins > 0 && i <= j < bins
    ensures 0.0 < BinCenter(i, bins) <= BinCenter(j, bins) < 256.0
  {
    BinValueOrder(i, j, bins);
  }

  // ---------------------------------------------------------------------
  // Weighted sums

  predicate NonNegative(h: seq<real>)
  {
    forall i :: 0 <= i < |h| ==> h[i] >= 0.0
  }

  /** A non-negative weighting of values that all lie in lo..hi (where the
      weight is not zero) lies between lo and hi times the total weight. */
  lemma WeightedBounds(h: seq<real>, xs: seq<real>, lo: real, hi: real)
    requires |h| == |xs| && NonNegative(h)
    requires forall i :: 0 <= i < |h| && h[i] != 0.0 ==> lo <= xs[i] <= hi
    ensures lo * Sum(h) <= Sum(Products(h, xs)) <= hi * Sum(h)
  {
    WeightedLower(h, xs, lo);
    WeightedUpper(h, xs, hi);
  }

  /** A square is never negative. */
  lemma SquareNonNegative(d: real)
    ensures d * d >= 0.0
  {
    if d < 0.0 {
      ScaleLe(-d, -d, 0.0);
    } else {
      ScaleLe(d, d, 0.0);
    }
  }

  /** A non-negative weighting of non-negative values is non-negative. */
  lemma WeightedNonNegative(h: seq<real>, xs: seq<real>)
    requires |h| == |xs| && NonNegative(h) && NonNegative(xs)
    ensures Sum(Products(h, xs)) >= 0.0
  {
    var p := Products(h, xs);
    forall i | 0 <= i < |p| ensures p[i] >= 0.0 {
      ScaleLe(h[i], xs[i], 0.0);
    }
    SumNonNegative(p);
  }

  // ---------------------------------------------------------------------
  // Statistics

  /** `np.sum(lightness_hist * bin_centers)`. */
  function HistMean(h: seq<real>): real
    requires |h| > 0
  {
    Sum(Products(h, BinCenters(|h|)))
  }

  /** `(bin_centers - mean) ** 2`. */
  function SquaredOffsets(cs: seq<real>, m: real): (sq: seq<real>)
    ensures |sq| == |cs| && forall i :: 0 <= i < |cs| ==> sq[i] == (cs[i] - m) * (cs[i] - m)
  {
    seq(|cs|, i requires 0 <= i < |cs| => (cs[i] - m) * (cs[i] - m))
  }

  /** `((bin_centers - mean) / std) ** 3`. */
  function CubedOffsets(cs: seq<real>, m: real, sd: real): (cu: seq<real>)
    requires sd != 0.0
    ensures |cu| == |cs|
  {
    seq(|cs|, i requires 0 <= i < |cs| => ((cs[i] - m) / sd) * ((cs[i] - m) / sd) * ((cs[i] - m) / sd))
  }

  /** `np.sum(lightness_hist * ((bin_centers - mean) / std) ** 3)`. */
  function HistSkewness(h: seq<real>, std: real): real
    requires |h| > 0 && std != 0.0
  {
    Sum(Products(h, CubedOffsets(BinCenters(|h|), HistMean(h), std)))
  }

  /** `np.sum(lightness_hist * (bin_centers - mean) ** 2)`. */
  function HistVariance(h: seq<real>): real
    requires |h| > 0
  {
    Sum(Products(h, SquaredOffsets(BinCenters(|h|), HistMean(h))))
  }

  /** A histogram with no negative bin has a non-negative variance. */
  lemma HistVarianceNonNegative(h: seq<real>)
    requires |h| > 0 && NonNegative(h)
    ensures HistVariance(h) >= 0.0
  {
    var cs, m := BinCenters(|h|), HistMean(h);
    SquaredOffsetsNonNegative(cs, m);
    WeightedNonNegative(h, SquaredOffsets(cs, m));
  }

  lemma SquaredOffsetsNonNegative(cs: seq<real>, m: real)
    ensures NonNegative(SquaredOffsets(cs, m))
  {
    var sq := SquaredOffsets(cs, m);
    forall i | 0 <= i < |sq| ensures sq[i] >= 0.0 {
      SquareNonNegative(cs[i] - m);
    }
  }

  /** A normalised histogram's mean lies between the centres of the first
      and the last bin. */
  lemma HistMeanBounds(h: seq<real>)
    requires |h| > 0 && NonNegative(h) && Sum(h) == 1.0
    ensures BinCenter(0, |h|) <= HistMean(h) <= BinCenter(|h| - 1, |h|)
  {
    var bins := |h|;
    forall i | 0 <= i < bins
      ensures BinCenter(0, bins) <= BinCenters(bins)[i] <= BinCenter(bins - 1, bins)
    {
      BinCenterFacts(0, i, bins);
      BinCenterFacts(i, bins - 1, bins);
    }
    WeightedBounds(h, BinCenters(bins), BinCenter(0, bins), BinCenter(bins - 1, bins));
  }

  /** `compute_lightness_stats`: the weighted mean, its standard deviation
      and the weighted skewness, which is 0.0 when the deviation is not
      positive. */
  function ComputeLightnessStats(ops: RealOps, h: seq<real>): (r: Result<LightnessStats, string>)
    ensures r.Failure? <==> |h| == 0
    ensures r.Success? ==> r.value.mean == HistMean(h)
    ensures r.Success? && r.value.std <= 0.0 ==> r.value.skewness == 0.0
  {
    if |h| == 0 then Failure(DivisionByZero)
    else
      var std := ops.sqrt(HistVariance(h));
      var skewness := if std > 0.0 then HistSkewness(h, std) else 0.0;
      Success(LightnessStats(HistMean(h), std, skewness))
  }

  /** For a histogram without negative bins the std is the non-negative
      square root of the weighted variance. */
  lemma StatsStdDeviation(ops: RealOps, h: seq<real>)
    requires Sound(ops) && |h| > 0 && NonNegative(h)
    ensures var st := ComputeLightnessStats(ops, h).value;
      st.std >= 0.0 && st.std * st.std == HistVariance(h)
  {
    HistVarianceNonNegative(h);
  }

  /** A normalised histogram whose whole mass sits in bin j has its mean at
      that bin's centre, no spread and no skew (for any square root with
      sqrt(0) = 0, which every sound one has). */
  lemma SingleBinStats(ops: RealOps, h: seq<real>, j: nat)
    requires ops.sqrt(0.0) == 0.0 && j < |h| && NonNegative(h) && Sum(h) == 1.0
    requires forall i :: 0 <= i < |h| && i != j ==> h[i] == 0.0
    ensures var st := ComputeLightnessStats(ops, h).value;
      st.mean == BinCenter(j, |h|) && st.std == 0.0 && st.skewness == 0.0
  {
    SingleBinMean(h, j);
    SingleBinVariance(h, j);
    ZeroSpreadStats(ops, h);
  }

  lemma SoundSqrtOfZero(ops: RealOps)
    requires Sound(ops)
    ensures ops.sqrt(0.0) == 0.0
  {
    SqrtOfSquare(ops, 0.0);
  }

  lemma ZeroSpreadStats(ops: RealOps, h: seq<real>)
    requires |h| > 0 && ops.sqrt(HistVariance(h)) == 0.0
    ensures ComputeLightnessStats(ops, h).value.std == 0.0
    ensures ComputeLightnessStats(ops, h).value.skewness == 0.0
  {
  }

  lemma SingleBinMean(h: seq<real>, j: nat)
    requires j < |h| && NonNegative(h) && Sum(h) == 1.0
    requires forall i :: 0 <= i < |h| && i != j ==> h[i] == 0.0
    ensures HistMean(h) == BinCenter(j, |h|)
  {
    var c := BinCenter(j, |h|);
    WeightedBounds(h, BinCenters(|h|), c, c);
  }

  lemma SingleBinVariance(h: seq<real>, j: nat)
    requires j < |h| && NonNegative(h) && Sum(h) == 1.0
    requires forall i :: 0 <= i < |h| && i != j ==> h[i] == 0.0
    ensures HistVariance(h) == 0.0
  {
    SingleBinMean(h, j);
    OffsetsAtMass(h, BinCenters(|h|), HistMean(h), j);
  }

  /** Weighting squared offsets from m by a histogram whose only mass sits
      where the value is m gives 0. */
  lemma OffsetsAtMass(h: seq<real>, cs: seq<real>, m: real, j: nat)
    requires |h| == |cs| && j < |h| && cs[j] == m
    requires forall i :: 0 <= i < |h| && i != j ==> h[i] == 0.0
    ensures Sum(Products(h, SquaredOffsets(cs, m))) == 0.0
  {
    var sq := SquaredOffsets(cs, m);
    var p := Products(h, sq);
    forall i | 0 <= i < |h| ensures p[i] == 0.0 {
      if i == j {
        assert sq[i] == 0.0;
      }
    }
    SumConstant(p, 0.0);
  }

  /** `compute_contrast`: the std of the lightness statistics. */
  function ComputeContrast(ops: RealOps, h: seq<real>): (r: Result<real, string>)
    ensures r.Failure? <==> |h| == 0
  {
    var stats := ComputeLightnessStats(ops, h);
    if stats.Failure? then Failure(stats.error) else Success(stats.value.std)
  }

  /** The contrast of a histogram without negative bins is the standard
      deviation of its lightness: non-negative, and its square is the
      weighted variance. */
  lemma ContrastIsDeviation(ops: RealOps, h: seq<real>)
    requires Sound(ops) && |h| > 0 && NonNegative(h)
    ensures var c := ComputeContrast(ops, h).value;
      c >= 0.0 && c * c == HistVariance(h)
  {
    StatsStdDeviation(ops, h);
  }

  // ---------------------------------------------------------------------
  // Tonal class

  /** `classify_tonal_range` on a histogram: the analyser's strict
      thresholds applied to the weighted mean lightness. */
  function ClassifyTonalRange(a: Analyzer, h: seq<real>): (r: Result<TonalClass, string>)
    ensures r.Failure? <==> |h| == 0
    ensures r.Success? ==>
      && (r.value == HighKey <==> HistMean(h) > a.highKeyThreshold)
      && (r.value == LowKey <==> !(HistMean(h) > a.highKeyThreshold) && HistMean(h) < a.lowKeyThreshold)
      && (r.value == MidKey <==> a.lowKeyThreshold <= HistMean(h) <= a.highKeyThreshold)
  {
    if |h| == 0 then Failure(DivisionByZero)
    else Success(FeatureExtraction.ClassifyTonalRange(HistMean(h), a.highKeyThreshold, a.lowKeyThreshold))
  }

  /** A normalised histogram with no mass below a bin whose centre is above
      the high threshold is high-key. */
  lemma HighKeyFromMassAbove(a: Analyzer, h: seq<real>, j: nat)
    requires j < |h| && NonNegative(h) && Sum(h) == 1.0
    requires BinCenter(j, |h|) > a.highKeyThreshold
    requires forall i :: 0 <= i < j ==> h[i] == 0.0
    ensures ClassifyTonalRange(a, h) == Success(HighKey)
  {
    var bins := |h|;
    var lo := BinCenter(j, bins);
    assert HistMean(h) >= lo by {
      forall i | 0 <= i < bins && h[i] != 0.0
        ensures lo <= BinCenters(bins)[i]
      {
        BinCenterFacts(j, i, bins);
      }
      WeightedLower(h, BinCenters(bins), lo);
      assert lo * Sum(h) == lo;
    }
  }

  /** A normalised histogram with no mass above a bin whose centre is below
      the low threshold is low-key, when the thresholds are ordered. */
  lemma LowKeyFromMassBelow(a: Analyzer, h: seq<real>, j: nat)
    requires j < |h| && NonNegative(h) && Sum(h) == 1.0
    requires a.lowKeyThreshold <= a.highKeyThreshold
    requires BinCenter(j, |h|) < a.lowKeyThreshold
    requires forall i :: j < i < |h| ==> h[i] == 0.0
    ensures ClassifyTonalRange(a, h) == Success(LowKey)
  {
    var bins := |h|;
    var hi := BinCenter(j, bins);
    assert HistMean(h) <= hi by {
      forall i | 0 <= i < bins && h[i] != 0.0
        ensures BinCenters(bins)[i] <= hi
      {
        BinCenterFacts(i, j, bins);
      }
      WeightedUpper(h, BinCenters(bins), hi);
      assert hi * Sum(h) == hi;
    }
  }

  // ---------------------------------------------------------------------
  // Dynamic range

  /** `np.cumsum`. */
  function Cumsum(h: seq<real>): (c: seq<real>)
    ensures |c| == |h| && forall i :: 0 <= i < |h| ==> c[i] == Sum(h[..i + 1])
  {
    seq(|h|, i requires 0 <= i < |h| => Sum(h[..i + 1]))
  }

  /** The running total of a histogram without negative bins never
      decreases, so numpy's binary search over it is well defined. */
  lemma CumsumNondecreasing(h: seq<real>, i: nat, j: nat)
    requires NonNegative(h) && i <= j < |h|
    ensures Cumsum(h)[i] <= Cumsum(h)[j]
  {
    var c := Cumsum(h);
    assert h[..j + 1] == h[..i + 1] + h[i + 1..j + 1];
    SumAppend(h[..i + 1], h[i + 1..j + 1]);
    SumNonNegative(h[i + 1..j + 1]);
  }

  /** `np.searchsorted(a, v)` (side 'left'): the leftmost position at which
      v could be inserted, i.e. the first index whose entry is at least v,
      or |a| when there is none. */
  function SearchSorted(a: seq<real>, v: real): (r: nat)
    ensures r <= |a|
    ensures forall j :: 0 <= j < r ==> a[j] < v
    ensures r < |a| ==> a[r] >= v
  {
    if |a| == 0 then 0
    else if a[0] >= v then 0
    else 1 + SearchSorted(a[1..], v)
  }

  /** A larger value is never inserted further left. */
  lemma SearchSortedMonotone(a: seq<real>, v: real, w: real)
    requires v <= w
    ensures SearchSorted(a, v) <= SearchSorted(a, w)
  {
    var rw := SearchSorted(a, w);
    if rw < |a| {
      assert a[rw] >= v;
    }
  }

  /** A percentile within the histogram's total mass is found inside the
      histogram, so the clamp to the last bin only acts beyond the total. */
  lemma SearchSortedWithinTotal(h: seq<real>, v: real)
    requires |h| > 0 && v <= Sum(h)
    ensures SearchSorted(Cumsum(h), v) < |h|
  {
    var c := Cumsum(h);
    assert h[..|h|] == h;
    assert c[|h| - 1] >= v;
  }

  /** `compute_dynamic_range`: the distance between the lower edges of the
      bins holding the low and the high percentile of the running total,
      both indices clamped to the last bin. */
  function ComputeDynamicRange(h: seq<real>, percentileLow: real, percentileHigh: real): (r: Result<real, string>)
    ensures r.Failure? <==> |h| == 0
    ensures r.Success? ==>
      var bins := |h|;
      var lowIdx := SearchSorted(Cumsum(h), percentileLow / 100.0);
      var highIdx := SearchSorted(Cumsum(h), percentileHigh / 100.0);
      r.value == BinValue(if highIdx < bins - 1 then highIdx else bins - 1, bins)
               - BinValue(if lowIdx < bins - 1 then lowIdx else bins - 1, bins)
  {
    if |h| == 0 then Failure(DivisionByZero)
    else
      var cdf := Cumsum(h);
      var bins := |h|;
      var lowIdx := SearchSorted(cdf, percentileLow / 100.0);
      var highIdx := SearchSorted(cdf, percentileHigh / 100.0);
      var lowValue := BinValue(if lowIdx < bins - 1 then lowIdx else bins - 1, bins);
      var highValue := BinValue(if highIdx < bins - 1 then highIdx else bins - 1, bins);
      Success(highValue - lowValue)
  }

  /** With ordered percentiles the dynamic range is never negative and
      never more than the span of the bin edges, 256 less one bin width. */
  lemma DynamicRangeBounds(h: seq<real>, percentileLow: real, percentileHigh: real)
    requires |h| > 0 && percentileLow <= percentileHigh
    ensures var r := ComputeDynamicRange(h, percentileLow, percentileHigh).value;
      0.0 <= r <= 256.0 - BinWidth(|h|)
  {
    var bins := |h|;
    var cdf := Cumsum(h);
    var lowIdx := SearchSorted(cdf, percentileLow / 100.0);
    var highIdx := SearchSorted(cdf, percentileHigh / 100.0);
    SearchSortedMonotone(cdf, percentileLow / 100.0, percentileHigh / 100.0);
    var lo := if lowIdx < bins - 1 then lowIdx else bins - 1;
    var hi := if highIdx < bins - 1 then highIdx else bins - 1;
    BinValueOrder(lo, hi, bins);
    BinValueOrder(hi, hi, bins);
  }
}
