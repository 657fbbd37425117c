/**
 * The advanced mode's per-image features: HSV conversion, channel
 * histograms, lightness statistics, the tonal class of the mean lightness,
 * and the dominant L*a*b* colours found by K-means.
 *
 * The conversion to L*a*b* and the decoding and resizing of the image are
 * not modelled: the L*a*b* pixels are an input, already in the 0-255 range
 * the source clips them to.
 */
module FeatureExtraction {
  import opened Models
  import opened RealMath
  import opened SeqUtil
  import opened Sorting
  import opened KMeans

  /** The extractor's configuration; the source never changes it after
      construction. */
  datatype Settings = Settings(
    hueBins: nat,
    lightnessBins: nat,
    saturationBins: nat,
    nDominantColors: int,
    highKeyThreshold: real,
    lowKeyThreshold: real)

  /** The defaults of `AdvancedFeatureExtractor.__init__`. */
  const DefaultSettings: Settings := Settings(180, 256, 256, 5, 170.0, 85.0)

  // ---------------------------------------------------------------------
  // RGB to HSV, one pixel at a time

  /** An HSV pixel on OpenCV's scale: H in 0..179, S and V in 0..255. */
  datatype Hsv = Hsv(h: int, s: int, v: int)

  function Rn(p: Rgb): real { p.r as real / 255.0 }
  function Gn(p: Rgb): real { p.g as real / 255.0 }
  function Bn(p: Rgb): real { p.b as real / 255.0 }

  function MaxC(p: Rgb): real { Max(Max(Rn(p), Gn(p)), Bn(p)) }
  function MinC(p: Rgb): real { Min(Min(Rn(p), Gn(p)), Bn(p)) }
  function Diff(p: Rgb): real { MaxC(p) - MinC(p) }

  /** Python's `x % 360` on floats: the result takes the divisor's sign. */
  function Mod360(x: real): (r: real)
    ensures 0.0 <= r < 360.0
  {
    x - 360.0 * (x / 360.0).Floor as real
  }

  predicate RedMask(p: Rgb) { Diff(p) != 0.0 && MaxC(p) == Rn(p) }
  predicate GreenMask(p: Rgb) { Diff(p) != 0.0 && MaxC(p) == Gn(p) }
  predicate BlueMask(p: Rgb) { Diff(p) != 0.0 && MaxC(p) == Bn(p) }

  function RedHue(p: Rgb): real
    requires Diff(p) != 0.0
  {
    Mod360(60.0 * ((Gn(p) - Bn(p)) / Diff(p)) + 360.0)
  }

  function GreenHue(p: Rgb): real
    requires Diff(p) != 0.0
  {
    Mod360(60.0 * ((Bn(p) - Rn(p)) / Diff(p)) + 120.0)
  }

  function BlueHue(p: Rgb): real
    requires Diff(p) != 0.0
  {
    Mod360(60.0 * ((Rn(p) - Gn(p)) / Diff(p)) + 240.0)
  }

  /** `h` after the red assignment. */
  function HueAfterRed(p: Rgb): real
  {
    if RedMask(p) then RedHue(p) else 0.0
  }

  /** `h` after the green assignment. */
  function HueAfterGreen(p: Rgb): real
  {
    if GreenMask(p) then GreenHue(p) else HueAfterRed(p)
  }

  /** `h` after the blue assignment: the hue in degrees. */
  function Hue(p: Rgb): real
  {
    if BlueMask(p) then BlueHue(p) else HueAfterGreen(p)
  }

  function Saturation(p: Rgb): real
  {
    if MaxC(p) != 0.0 then Diff(p) / MaxC(p) else 0.0
  }

  /** The last three lines of `_rgb_to_hsv` for one pixel with hue `hue`:
      halved and scaled to 255, `astype(np.uint8)` truncating. */
  function Pack(hue: real, p: Rgb): Hsv
  {
    Hsv((hue / 2.0).Floor, (Saturation(p) * 255.0).Floor, (MaxC(p) * 255.0).Floor)
  }

  /** One pixel of `_rgb_to_hsv`'s result. */
  function HsvOf(p: Rgb): Hsv
  {
    Pack(Hue(p), p)
  }

  /** The later masked assignment wins: blue over green over red, and an
      achromatic pixel keeps hue 0. */
  lemma HuePrecedence(p: Rgb)
    ensures Diff(p) == 0.0 ==> Hue(p) == 0.0
    ensures Diff(p) != 0.0 && MaxC(p) == Bn(p) ==> Hue(p) == BlueHue(p)
    ensures Diff(p) != 0.0 && MaxC(p) == Gn(p) && MaxC(p) != Bn(p) ==> Hue(p) == GreenHue(p)
    ensures Diff(p) != 0.0 && MaxC(p) != Gn(p) && MaxC(p) != Bn(p) ==> Hue(p) == RedHue(p)
  {
  }

  function MaxChannel(p: Rgb): int
  {
    if p.r >= p.g && p.r >= p.b then p.r else if p.g >= p.b then p.g else p.b
  }

  function MinChannel(p: Rgb): int
  {
    if p.r <= p.g && p.r <= p.b then p.r else if p.g <= p.b then p.g else p.b
  }

  lemma QuotientInUnit(a: real, b: real)
    requires 0.0 <= a <= b && b > 0.0
    ensures 0.0 <= a / b <= 1.0
  {
    var q := a / b;
    assert q * b == a;
    assert (1.0 - q) * b == b - a;
    NonNegFactor(q, b);
    NonNegFactor(1.0 - q, b);
  }

  lemma QuotientAtLeast(a: real, b: real)
    requires 0.0 < b <= 1.0 && a >= 0.0
    ensures a / b >= a
  {
    var q := a / b;
    assert q * b == a;
    NonNegFactor(q, b);
    ScaleLe(q, 1.0, b);
  }

  /** For valid RGB: H in 0..179, S in 0..255, V the largest channel, and S
      (likewise H) is 0 when all channels are equal; S is 0 only then. */
  lemma HsvRanges(p: Rgb)
    requires p.Valid()
    ensures var hsv := HsvOf(p);
      && 0 <= hsv.h <= 179
      && 0 <= hsv.s <= 255
      && hsv.v == MaxChannel(p)
      && (hsv.s == 0 <==> MaxChannel(p) == MinChannel(p))
      && (MaxChannel(p) == MinChannel(p) ==> hsv.h == 0)
  {
    var mx, mn := MaxChannel(p), MinChannel(p);
    assert MaxC(p) == mx as real / 255.0;
    assert MinC(p) == mn as real / 255.0;
    assert MaxC(p) * 255.0 == mx as real;
    var d := Diff(p);
    if MaxC(p) != 0.0 {
      QuotientInUnit(d, MaxC(p));
      if mx != mn {
        assert d >= 1.0 / 255.0;
        QuotientAtLeast(d, MaxC(p));
      }
    }
  }

  /** numpy's `h[mask] = value[mask]`: the entries whose pixel is in the
      mask take the pixel's value, the others keep theirs. */
  method MaskedAssign(h: array<real>, image: seq<Rgb>, mask: Rgb -> bool, value: Rgb --> real)
    requires h.Length == |image|
    requires forall p :: mask(p) ==> value.requires(p)
    modifies h
    ensures forall j :: 0 <= j < |image| ==> h[j] == if mask(image[j]) then value(image[j]) else old(h[j])
  {
    for i := 0 to |image|
      invariant forall j :: 0 <= j < i ==> h[j] == if mask(image[j]) then value(image[j]) else old(h[j])
      invariant forall j :: i <= j < |image| ==> h[j] == old(h[j])
    {
      if mask(image[i]) {
        h[i] := value(image[i]);
      }
    }
  }

  /** The hue channel of `_rgb_to_hsv`, in degrees: three successive masked
      assignments into an array that starts at 0. */
  method HueChannel(image: seq<Rgb>) returns (hue: seq<real>)
    ensures |hue| == |image|
    ensures forall i :: 0 <= i < |image| ==> hue[i] == Hue(image[i])
  {
    var n := |image|;
    var h := new real[n](_ => 0.0);
    MaskedAssign(h, image, RedMask, RedHue);
    assert forall j :: 0 <= j < n ==> h[j] == HueAfterRed(image[j]);
    MaskedAssign(h, image, GreenMask, GreenHue);
    assert forall j :: 0 <= j < n ==> h[j] == HueAfterGreen(image[j]);
    MaskedAssign(h, image, BlueMask, BlueHue);
    hue := h[..];
  }

  /** `_rgb_to_hsv`: the hue channel, then value and saturation per pixel,
      each scaled and truncated to uint8. */
  method RgbToHsv(image: seq<Rgb>) returns (hsv: seq<Hsv>)
    ensures |hsv| == |image|
    ensures forall i :: 0 <= i < |image| ==> hsv[i] == HsvOf(image[i])
  {
    var n := |image|;
    var h := HueChannel(image);
    hsv := [];
    for i := 0 to n
      invariant |hsv| == i
      invariant forall j :: 0 <= j < i ==> hsv[j] == HsvOf(image[j])
    {
      hsv := hsv + [Pack(h[i], image[i])];
    }
  }

  // ---------------------------------------------------------------------
  // Histograms

  /** `np.histogram(values, bins=bins, range=(0, bins))` counts the values
      in [0, bins] with unit-width bins, the last bin being closed on the
      right. */
  predicate Counted(v: int, bins: nat)
  {
    0 <= v <= bins
  }

  function BinOf(v: int, bins: nat): int
  {
    if v == bins then bins - 1 else v
  }

  /** How many values fall into bin b. */
  function BinCount(values: seq<int>, bins: nat, b: int): nat
    decreases |values|
  {
    if |values| == 0 then 0
    else
      var v := values[|values| - 1];
      BinCount(values[..|values| - 1], bins, b) + (if Counted(v, bins) && BinOf(v, bins) == b then 1 else 0)
  }

  /** How many values fall into some bin. */
  function CountedTotal(values: seq<int>, bins: nat): nat
    decreases |values|
  {
    if |values| == 0 then 0
    else
      var v := values[|values| - 1];
      CountedTotal(values[..|values| - 1], bins) + (if Counted(v, bins) then 1 else 0)
  }

  function BinCounts(values: seq<int>, bins: nat): (cs: seq<real>)
    ensures |cs| == bins
    ensures forall b :: 0 <= b < bins ==> cs[b] == BinCount(values, bins, b) as real
  {
    seq(bins, b requires 0 <= b < bins => BinCount(values, bins, b) as real)
  }

  /** Values of a uint8 channel below `bins` are all counted. */
  lemma {:induction false} AllCounted(values: seq<int>, bins: nat)
    requires forall i :: 0 <= i < |values| ==> 0 <= values[i] < bins
    ensures CountedTotal(values, bins) == |values|
    decreases |values|
  {
    if |values| > 0 {
      AllCounted(values[..|values| - 1], bins);
    }
  }

  /** The histogram as `_compute_histogram` returns it. */
  function Histogram(values: seq<int>, bins: nat, normalize: bool): seq<real>
    requires bins >= 1
  {
    var counts := BinCounts(values, bins);
    var total := CountedTotal(values, bins);
    if normalize && total > 0 then
      seq(bins, b requires 0 <= b < bins => counts[b] / total as real)
    else counts
  }

  /** Counting one more value adds one to its bin and to the total. */
  lemma CountStep(values: seq<int>, i: nat, bins: nat)
    requires i < |values|
    ensures forall b :: BinCount(values[..i + 1], bins, b) ==
                        BinCount(values[..i], bins, b) + (if Counted(values[i], bins) && BinOf(values[i], bins) == b then 1 else 0)
    ensures CountedTotal(values[..i + 1], bins) == CountedTotal(values[..i], bins) + (if Counted(values[i], bins) then 1 else 0)
  {
    assert values[..i + 1][..i] == values[..i];
  }

  /** The counts after one more value v: one more in its bin when counted. */
  function Tallied(cs: seq<real>, v: int, bins: nat): (r: seq<real>)
    requires |cs| == bins
    ensures |r| == bins
  {
    if Counted(v, bins) && 0 <= BinOf(v, bins) < bins then
      cs[BinOf(v, bins) := cs[BinOf(v, bins)] + 1.0]
    else cs
  }

  /** Counting values[i] takes the counts of values[..i] to those of
      values[..i + 1], and their sum from one total to the next. */
  lemma TallyStep(values: seq<int>, i: nat, bins: nat, cs: seq<real>)
    requires i < |values| && bins >= 1
    requires cs == BinCounts(values[..i], bins) && Sum(cs) == CountedTotal(values[..i], bins) as real
    ensures Tallied(cs, values[i], bins) == BinCounts(values[..i + 1], bins)
    ensures Sum(Tallied(cs, values[i], bins)) == CountedTotal(values[..i + 1], bins) as real
  {
    CountStep(values, i, bins);
    var v := values[i];
    if Counted(v, bins) {
      SumUpdate(cs, BinOf(v, bins), 1.0);
    }
  }

  /** The counting half of `np.histogram`. */
  method CountBins(values: seq<int>, bins: nat) returns (counts: seq<real>)
    requires bins >= 1
    ensures counts == BinCounts(values, bins)
    ensures Sum(counts) == CountedTotal(values, bins) as real
  {
    var a := new real[bins](_ => 0.0);
    SumConstant(a[..], 0.0);
    for i := 0 to |values|
      invariant a[..] == BinCounts(values[..i], bins)
      invariant Sum(a[..]) == CountedTotal(values[..i], bins) as real
    {
      var v := values[i];
      TallyStep(values, i, bins, a[..]);
      ghost var next := Tallied(a[..], v, bins);
      if 0 <= v <= bins {
        var b := if v == bins then bins - 1 else v;
        a[b] := a[b] + 1.0;
      }
      assert a[..] == next;
    }
    assert values[..|values|] == values;
    counts := a[..];
  }

  /** `_compute_histogram`: count into the bins, then divide by the total
      when normalising and something was counted.  The counts add up to the
      number of counted values, so a normalised histogram sums to one;
      with nothing counted every bin stays 0. */
  method ComputeHistogram(values: seq<int>, bins: nat, normalize: bool) returns (hist: seq<real>)
    requires bins >= 1
    ensures hist == Histogram(values, bins, normalize)
    ensures |hist| == bins && forall b :: 0 <= b < bins ==> hist[b] >= 0.0
    ensures Sum(BinCounts(values, bins)) == CountedTotal(values, bins) as real
    ensures normalize && CountedTotal(values, bins) > 0 ==> Sum(hist) == 1.0
    ensures CountedTotal(values, bins) == 0 ==> forall b :: 0 <= b < bins ==> hist[b] == 0.0
  {
    hist := CountBins(values, bins);
    var total := Sum(hist);
    if normalize && total > 0.0 {
      var raw := hist;
      hist := seq(bins, b requires 0 <= b < bins => raw[b] / total);
      SumDivide(raw, hist, total);
      assert total / total == 1.0;
    }
    forall b | 0 <= b < bins ensures BinCount(values, bins, b) <= CountedTotal(values, bins) {
      BinCountBound(values, bins, b);
    }
  }

  lemma {:induction false} BinCountBound(values: seq<int>, bins: nat, b: int)
    ensures BinCount(values, bins, b) <= CountedTotal(values, bins)
    decreases |values|
  {
    if |values| > 0 {
      BinCountBound(values[..|values| - 1], bins, b);
    }
  }

  // ---------------------------------------------------------------------
  // Lightness statistics and tonal class

  function SquaredDeviations(xs: seq<real>, m: real): (ds: seq<real>)
    ensures |ds| == |xs|
    ensures forall i :: 0 <= i < |xs| ==> ds[i] == (xs[i] - m) * (xs[i] - m) && ds[i] >= 0.0
  {
    seq(|xs|, i requires 0 <= i < |xs| => (xs[i] - m) * (xs[i] - m))
  }

  function CubedScores(xs: seq<real>, m: real, sd: real): (zs: seq<real>)
    requires sd != 0.0
    ensures |zs| == |xs|
  {
    seq(|xs|, i requires 0 <= i < |xs| => ((xs[i] - m) / sd) * ((xs[i] - m) / sd) * ((xs[i] - m) / sd))
  }

  /** `np.std`: the population standard deviation. */
  function StdDev(ops: RealOps, xs: seq<real>): real
    requires |xs| > 0
  {
    ops.sqrt(Mean(SquaredDeviations(xs, Mean(xs))))
  }

  /** `_compute_lightness_stats` on the flattened channel.  numpy's mean of
      no values is NaN, which reals do not have, so the channel must be
      non-empty. */
  function ComputeLightnessStats(ops: RealOps, xs: seq<real>): LightnessStats
    requires |xs| > 0
  {
    var m := Mean(xs);
    var sd := StdDev(ops, xs);
    var skew := if sd > 0.0 then Mean(CubedScores(xs, m, sd)) else 0.0;
    LightnessStats(m, sd, skew)
  }

  predicate AllEqual(xs: seq<real>)
  {
    forall i, j :: 0 <= i < |xs| && 0 <= j < |xs| ==> xs[i] == xs[j]
  }

  lemma MeanOfConstant(xs: seq<real>)
    requires |xs| > 0 && AllEqual(xs)
    ensures Mean(xs) == xs[0]
  {
    var n := |xs| as real;
    SumConstant(xs, xs[0]);
    assert (n * xs[0]) / n == xs[0];
  }

  /** The variance is zero exactly for a constant channel. */
  lemma VarianceZero(xs: seq<real>)
    requires |xs| > 0
    ensures Mean(SquaredDeviations(xs, Mean(xs))) >= 0.0
    ensures Mean(SquaredDeviations(xs, Mean(xs))) == 0.0 <==> AllEqual(xs)
  {
    var m := Mean(xs);
    var ds := SquaredDeviations(xs, m);
    var n := |xs| as real;
    SumNonNegative(ds);
    SumZero(ds);
    if Mean(ds) == 0.0 {
      assert Sum(ds) == Mean(ds) * n;
      forall i | 0 <= i < |xs| ensures xs[i] == m {
        SquareZero(xs[i] - m);
      }
    }
    if AllEqual(xs) {
      MeanOfConstant(xs);
      forall i | 0 <= i < |ds| ensures ds[i] == 0.0 {
        assert xs[i] - m == 0.0;
      }
      SumConstant(ds, 0.0);
    }
  }

  /** The statistics of a channel: the mean lies between the channel's
      bounds, the deviation is non-negative and zero exactly for a constant
      channel, whose skewness is 0. */
  lemma LightnessStatsFacts(ops: RealOps, xs: seq<real>, lo: real, hi: real)
    requires Sound(ops) && |xs| > 0
    requires forall i :: 0 <= i < |xs| ==> lo <= xs[i] <= hi
    ensures var st := ComputeLightnessStats(ops, xs);
      && lo <= st.mean <= hi
      && st.std >= 0.0
      && (st.std == 0.0 <==> AllEqual(xs))
      && (AllEqual(xs) ==> st.skewness == 0.0)
  {
    MeanBounds(xs, lo, hi);
    var v := Mean(SquaredDeviations(xs, Mean(xs)));
    VarianceZero(xs);
    SqrtOfSquare(ops, 0.0);
    var sd := ops.sqrt(v);
    assert sd * sd == v;
  }

  /** `_classify_tonal_range`: strictly above the high threshold is high
      key, strictly below the low one low key, anything else mid key. */
  function ClassifyTonalRange(mean: real, high: real, low: real): TonalClass
  {
    if mean > high then HighKey
    else if mean < low then LowKey
    else MidKey
  }

  function TonalRank(t: TonalClass): nat
  {
    match t
    case LowKey => 0
    case MidKey => 1
    case HighKey => 2
  }

  /** With ordered thresholds a brighter mean never gets a darker class, and
      both thresholds themselves are mid key. */
  lemma TonalMonotone(m1: real, m2: real, high: real, low: real)
    requires low <= high && m1 <= m2
    ensures TonalRank(ClassifyTonalRange(m1, high, low)) <= TonalRank(ClassifyTonalRange(m2, high, low))
    ensures ClassifyTonalRange(high, high, low) == MidKey && ClassifyTonalRange(low, high, low) == MidKey
  {
  }

  // ---------------------------------------------------------------------
  // Dominant colours

  /** `_simple_kmeans` of the advanced mode first lowers the cluster count
      to max(1, n) when there are fewer samples. */
  function ClampedClusters(n: nat, k: int): int
  {
    if n < k then (if n >= 1 then n else 1) else k
  }

  method AdvancedKMeans(pixels: seq<Point>, nClusters: int, order: seq<nat>,
                        close: (seq<Point>, seq<Point>) -> bool, maxIter: nat)
    returns (centers: seq<Point>, labels: seq<int>)
    requires |pixels| >= 1 && nClusters >= 1 && IsOrdering(order, |pixels|) && maxIter >= 1
    ensures |centers| == ClampedClusters(|pixels|, nClusters)
    ensures 1 <= |centers| <= |pixels| && |centers| <= nClusters
    ensures Clustering(centers, labels) == Run(pixels, Pick(pixels, order[..|centers|]), close, maxIter)
    ensures |labels| == |pixels| && LabelsBelow(labels, |centers|)
  {
    var k := nClusters;
    if |pixels| < k {
      k := if |pixels| >= 1 then |pixels| else 1;
    }
    var init := Pick(pixels, order[..k]);
    centers, labels := Iterate(pixels, init, close, maxIter);
  }

  function DominantPercentage(c: DominantColor): real { c.percentage }

  /** The DominantColor of cluster i before sorting: the centre's L rescaled
      from 0-255 to 0-100, a and b shifted back by 128. */
  function ClusterDominant(centers: seq<Point>, labels: seq<int>, i: nat): DominantColor
    requires i < |centers| && |labels| > 0
  {
    var c := centers[i];
    DominantColor(c.x * 100.0 / 255.0, c.y - 128.0, c.z - 128.0, Round2(Share(labels, i)))
  }

  /** One DominantColor per centre of a clustering, in centre order. */
  function DominantsOf(c: Clustering): (colors: seq<DominantColor>)
    requires |c.labels| > 0
    ensures |colors| == |c.centers|
    ensures forall i :: 0 <= i < |colors| ==> colors[i] == ClusterDominant(c.centers, c.labels, i)
  {
    seq(|c.centers|, i requires 0 <= i < |c.centers| => ClusterDominant(c.centers, c.labels, i))
  }

  /** A centre in the 0-255 box gives L in 0..100 and a, b in -128..127. */
  lemma ClusterDominantRanges(centers: seq<Point>, labels: seq<int>, i: nat)
    requires i < |centers| && |labels| > 0 && InBox(centers[i], 0.0, 255.0)
    ensures var d := ClusterDominant(centers, labels, i);
      0.0 <= d.l <= 100.0 && -128.0 <= d.a <= 127.0 && -128.0 <= d.b <= 127.0
  {
  }

  /** The shares of the colours add up to 100 up to the rounding of n
      shares to hundredths. */
  predicate SharesNearHundred(colors: seq<DominantColor>, n: int)
  {
    Abs(Sum(Keys(colors, DominantPercentage)) - 100.0) <= n as real * 0.005
  }

  /** The loop of `_extract_dominant_colors` over the centres. */
  method CollectDominantColors(centers: seq<Point>, labels: seq<int>) returns (colors: seq<DominantColor>)
    requires |labels| > 0
    ensures |colors| == |centers|
    ensures forall i :: 0 <= i < |centers| ==> colors[i] == ClusterDominant(centers, labels, i)
    ensures LabelsBelow(labels, |centers|) ==>
      SharesNearHundred(colors, |centers|)
  {
    colors := [];
    for i := 0 to |centers|
      invariant |colors| == i
      invariant forall j :: 0 <= j < i ==> colors[j] == ClusterDominant(centers, labels, j)
    {
      var c := centers[i];
      var percentage := Share(labels, i);
      colors := colors + [DominantColor(c.x * 100.0 / 255.0, c.y - 128.0, c.z - 128.0, Round2(percentage))];
    }
    var shares := Shares(labels, |centers|);
    var ps := Keys(colors, DominantPercentage);
    RoundedSum(shares, ps);
    if LabelsBelow(labels, |centers|) {
      SharesTotal(labels, |centers|);
    }
  }

  /** The number of K-means rounds `_extract_dominant_colors` allows. */
  const MaxIterations: nat := 100

  /** The K-means run of `_extract_dominant_colors` on the Lab pixels, from
      the centres at the first positions of the shuffled order. */
  function DominantRun(lab: seq<Point>, nDominant: int, order: seq<nat>,
                       close: (seq<Point>, seq<Point>) -> bool): (c: Clustering)
    requires |lab| > 0 && nDominant >= 1 && IsOrdering(order, |lab|)
    ensures |c.centers| == ClampedClusters(|lab|, nDominant) && |c.labels| == |lab|
  {
    var picks := order[..ClampedClusters(|lab|, nDominant)];
    RunSizes(lab, Pick(lab, picks), close, MaxIterations);
    Run(lab, Pick(lab, picks), close, MaxIterations)
  }

  /** `_extract_dominant_colors`: one DominantColor per centre, sorted by
      descending share; unlike the simple mode no correction to 100 is made,
      so the shares only add up to within k * 0.005 of 100.  numpy refuses
      an empty pixel list or a cluster count below one; that is the Failure
      here. */
  method ExtractDominantColors(lab: seq<Point>, nDominant: int, order: seq<nat>,
                               close: (seq<Point>, seq<Point>) -> bool)
    returns (result: Result<seq<DominantColor>, string>)
    requires IsOrdering(order, |lab|)
    ensures result.Failure? <==> |lab| == 0 || nDominant < 1
    ensures result.Success? ==>
      var colors := result.value;
      var k := ClampedClusters(|lab|, nDominant);
      && |colors| == k
      && SortedDesc(colors, DominantPercentage)
      && SharesNearHundred(colors, k)
      && (forall i :: 0 <= i < |colors| ==> IsCents(colors[i].percentage))
      && (AllInBox(lab, 0.0, 255.0) ==> forall i :: 0 <= i < |colors| ==>
            0.0 <= colors[i].l <= 100.0 && -128.0 <= colors[i].a <= 127.0 && -128.0 <= colors[i].b <= 127.0)
    ensures result.Success? ==>
      result.value == SortDesc(DominantsOf(DominantRun(lab, nDominant, order, close)), DominantPercentage)
  {
    if |lab| == 0 || nDominant < 1 {
      return Failure("ValueError");
    }
    var centers, labels := AdvancedKMeans(lab, nDominant, order, close, MaxIterations);
    var colors := CollectDominantColors(centers, labels);
    var sorted := SortDominant(colors);
    DominantSuccess(lab, nDominant, order, close, centers, labels, colors, sorted);
    assert colors == DominantsOf(Clustering(centers, labels));
    result := Success(sorted);
  }

  /** What the success branch of ExtractDominantColors promises, from the
      facts about the clustering and the collected colours. */
  lemma DominantSuccess(lab: seq<Point>, nDominant: int, order: seq<nat>,
                        close: (seq<Point>, seq<Point>) -> bool,
                        centers: seq<Point>, labels: seq<int>, colors: seq<DominantColor>,
                        sorted: seq<DominantColor>)
    requires |lab| > 0 && nDominant >= 1 && IsOrdering(order, |lab|)
    requires Clustering(centers, labels) ==
      Run(lab, Pick(lab, order[..ClampedClusters(|lab|, nDominant)]), close, MaxIterations)
    requires |centers| == ClampedClusters(|lab|, nDominant) && |labels| == |lab|
    requires LabelsBelow(labels, |centers|)
    requires |colors| == |centers|
    requires forall i :: 0 <= i < |centers| ==> colors[i] == ClusterDominant(centers, labels, i)
    requires LabelsBelow(labels, |centers|) ==>
      SharesNearHundred(colors, |centers|)
    requires sorted == SortDesc(colors, DominantPercentage)
    ensures SharesNearHundred(sorted, ClampedClusters(|lab|, nDominant))
    ensures WellFormed(sorted, AllInBox(lab, 0.0, 255.0))
  {
    var k := ClampedClusters(|lab|, nDominant);
    var inBox := AllInBox(lab, 0.0, 255.0);
    if inBox {
      PickedRunInBox(lab, order[..k], close, centers, labels);
    }
    SortedDominantTotal(colors, k);
    DominantFacts(centers, labels, colors, inBox);
    SortedDominantFacts(colors, inBox);
  }

  /** Centres started from pixels in the Lab box stay in it. */
  lemma PickedRunInBox(lab: seq<Point>, picks: seq<nat>, close: (seq<Point>, seq<Point>) -> bool,
                       centers: seq<Point>, labels: seq<int>)
    requires |picks| > 0 && forall i :: 0 <= i < |picks| ==> picks[i] < |lab|
    requires Clustering(centers, labels) == Run(lab, Pick(lab, picks), close, MaxIterations)
    requires AllInBox(lab, 0.0, 255.0)
    ensures AllInBox(centers, 0.0, 255.0)
  {
    var init := Pick(lab, picks);
    assert AllInBox(init, 0.0, 255.0) by {
      forall i | 0 <= i < |init| ensures InBox(init[i], 0.0, 255.0) {
        assert init[i] == lab[picks[i]];
      }
    }
    RunInBox(lab, init, close, MaxIterations, 0.0, 255.0);
    var r := Run(lab, init, close, MaxIterations);
    assert centers == r.centers;
  }

  /** Line 290: `dominant_colors.sort(key=..., reverse=True)`. */
  method SortDominant(colors: seq<DominantColor>) returns (sorted: seq<DominantColor>)
    ensures sorted == SortDesc(colors, DominantPercentage) && |sorted| == |colors|
    ensures SortedDesc(sorted, DominantPercentage)
    ensures multiset(sorted) == multiset(colors)
    ensures Sum(Keys(sorted, DominantPercentage)) == Sum(Keys(colors, DominantPercentage))
  {
    SortDescFacts(colors, DominantPercentage);
    sorted := SortDesc(colors, DominantPercentage);
  }

  lemma SortedDominantTotal(colors: seq<DominantColor>, k: int)
    requires SharesNearHundred(colors, k)
    ensures SharesNearHundred(SortDesc(colors, DominantPercentage), k)
  {
    SortDescFacts(colors, DominantPercentage);
  }

  /** Every entry has a two-decimal share and, for centres in the box, its
      channels in range. */
  ghost predicate WellFormed(colors: seq<DominantColor>, inBox: bool)
  {
    forall i :: 0 <= i < |colors| ==>
      && IsCents(colors[i].percentage)
      && (inBox ==> 0.0 <= colors[i].l <= 100.0 && -128.0 <= colors[i].a <= 127.0 && -128.0 <= colors[i].b <= 127.0)
  }

  lemma DominantFacts(centers: seq<Point>, labels: seq<int>, colors: seq<DominantColor>, inBox: bool)
    requires |labels| > 0 && |colors| == |centers|
    requires forall i :: 0 <= i < |centers| ==> colors[i] == ClusterDominant(centers, labels, i)
    requires inBox ==> AllInBox(centers, 0.0, 255.0)
    ensures WellFormed(colors, inBox)
  {
    forall i | 0 <= i < |colors|
      ensures IsCents(colors[i].percentage)
      ensures inBox ==> 0.0 <= colors[i].l <= 100.0 && -128.0 <= colors[i].a <= 127.0 && -128.0 <= colors[i].b <= 127.0
    {
      if inBox {
        ClusterDominantRanges(centers, labels, i);
      }
    }
  }

  lemma SortedDominantFacts(colors: seq<DominantColor>, inBox: bool)
    requires WellFormed(colors, inBox)
    ensures WellFormed(SortDesc(colors, DominantPercentage), inBox)
  {
    var sorted := SortDesc(colors, DominantPercentage);
    SortDescFacts(colors, DominantPercentage);
    forall i | 0 <= i < |sorted|
      ensures IsCents(sorted[i].percentage)
      ensures inBox ==> 0.0 <= sorted[i].l <= 100.0 && -128.0 <= sorted[i].a <= 127.0 && -128.0 <= sorted[i].b <= 127.0
    {
      assert sorted[i] in multiset(colors);
      var j :| 0 <= j < |colors| && colors[j] == sorted[i];
    }
  }
}
