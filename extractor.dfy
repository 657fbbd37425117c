/**
 * The simple mode's colour extraction: K-means over the pixels of a resized
 * image, one ColorInfo per cluster with its share rounded to two decimals
 * and its nearest named colour, a correction that makes the shares add up
 * to 100, and the category of the largest colour.
 *
 * Opening, converting and resizing the image are not modelled: the
 * extraction starts from the list of RGB pixels.
 */
module ColorExtraction {
  import opened Models
  import opened RealMath
  import opened SeqUtil
  import opened Sorting
  import opened KMeans

  // ---------------------------------------------------------------------
  // Reference colours

  /** A named colour and its RGB value. */
  datatype Reference = Reference(category: ColorCategory, rgb: Rgb)

  /** `COLOR_CATEGORIES`, in insertion order. */
  const ColorCategories: seq<Reference> := [
    Reference(Red, Rgb(255, 0, 0)),
    Reference(Orange, Rgb(255, 165, 0)),
    Reference(Yellow, Rgb(255, 255, 0)),
    Reference(Green, Rgb(0, 128, 0)),
    Reference(Cyan, Rgb(0, 255, 255)),
    Reference(Blue, Rgb(0, 0, 255)),
    Reference(Purple, Rgb(128, 0, 128)),
    Reference(Pink, Rgb(255, 192, 203)),
    Reference(Brown, Rgb(139, 69, 19)),
    Reference(Black, Rgb(0, 0, 0)),
    Reference(White, Rgb(255, 255, 255)),
    Reference(Gray, Rgb(128, 128, 128))
  ]

  /** The nine entries before black, white and grey are the chromatic ones. */
  const ChromaticCount: nat := 9

  /** The categories the nearest-colour search skips. */
  predicate Achromatic(c: ColorCategory)
  {
    c == Black || c == White || c == Gray
  }

  /** Channel differences up to this count as grey. */
  const GrayscaleThreshold: int := 20

  function AbsInt(x: int): int { if x >= 0 then x else -x }

  /** `_is_grayscale`. */
  predicate IsGrayscale(rgb: Rgb, threshold: int)
  {
    && AbsInt(rgb.r - rgb.g) <= threshold
    && AbsInt(rgb.g - rgb.b) <= threshold
    && AbsInt(rgb.r - rgb.b) <= threshold
  }

  function MaxChannel(rgb: Rgb): int
  {
    if rgb.r >= rgb.g && rgb.r >= rgb.b then rgb.r else if rgb.g >= rgb.b then rgb.g else rgb.b
  }

  function MinChannel(rgb: Rgb): int
  {
    if rgb.r <= rgb.g && rgb.r <= rgb.b then rgb.r else if rgb.g <= rgb.b then rgb.g else rgb.b
  }

  /** A colour is grey exactly when its brightest and darkest channels are
      at most `threshold` apart. */
  lemma GrayscaleIsSpread(rgb: Rgb, threshold: int)
    ensures IsGrayscale(rgb, threshold) <==> MaxChannel(rgb) - MinChannel(rgb) <= threshold
  {
  }

  // ---------------------------------------------------------------------
  // Distances

  function ToPoint(rgb: Rgb): Point
  {
    Point(rgb.r as real, rgb.g as real, rgb.b as real)
  }

  /** `_euclidean_distance`. */
  function EuclideanDistance(ops: RealOps, a: Rgb, b: Rgb): real
  {
    ops.sqrt(SquaredDistance(ToPoint(a), ToPoint(b)))
  }

  /** The distance is symmetric, non-negative, and zero exactly between
      equal colours. */
  lemma EuclideanDistanceFacts(ops: RealOps, a: Rgb, b: Rgb)
    requires Sound(ops)
    ensures EuclideanDistance(ops, a, b) == EuclideanDistance(ops, b, a)
    ensures EuclideanDistance(ops, a, b) >= 0.0
    ensures EuclideanDistance(ops, a, b) == 0.0 <==> a == b
  {
    var pa, pb := ToPoint(a), ToPoint(b);
    assert SquaredDistance(pa, pb) == SquaredDistance(pb, pa);
    SquaredDistanceZero(pa, pb);
    var s := ops.sqrt(SquaredDistance(pa, pb));
    if s == 0.0 {
      assert SquaredDistance(pa, pb) == s * s;
    }
    if a == b {
      SqrtOfSquare(ops, 0.0);
    }
  }

  /** Comparing distances compares squared distances: sqrt is strictly
      monotone on the non-negative reals. */
  lemma SqrtOrder(ops: RealOps, a: real, b: real)
    requires Sound(ops) && a >= 0.0 && b >= 0.0
    ensures ops.sqrt(a) < ops.sqrt(b) <==> a < b
  {
    SqrtInjective(ops, a, b);
    if a <= b {
      SqrtMonotone(ops, a, b);
    } else {
      SqrtMonotone(ops, b, a);
    }
  }

  lemma SqrtInjective(ops: RealOps, a: real, b: real)
    requires Sound(ops) && a >= 0.0 && b >= 0.0
    ensures ops.sqrt(a) == ops.sqrt(b) ==> a == b
  {
    var sa, sb := ops.sqrt(a), ops.sqrt(b);
    assert sa * sa == a && sb * sb == b;
  }

  /** The squared distances to the nine chromatic references. */
  function ChromaticDistances(rgb: Rgb): (ds: seq<real>)
    ensures |ds| == ChromaticCount
    ensures forall k :: 0 <= k < ChromaticCount ==>
      ds[k] == SquaredDistance(ToPoint(rgb), ToPoint(ColorCategories[k].rgb))
  {
    seq(ChromaticCount, k requires 0 <= k < ChromaticCount => SquaredDistance(ToPoint(rgb), ToPoint(ColorCategories[k].rgb)))
  }

  // ---------------------------------------------------------------------
  // classify_color

  /** Black, white or grey by the mean of the channels. */
  function GrayBand(rgb: Rgb): ColorCategory
  {
    var brightness := (rgb.r + rgb.g + rgb.b) as real / 3.0;
    if brightness < 50.0 then Black
    else if brightness > 200.0 then White
    else Gray
  }

  /** What `classify_color` answers: a grey band for greys, otherwise the
      first of the nearest chromatic references. */
  function Classify(rgb: Rgb): ColorCategory
  {
    if IsGrayscale(rgb, GrayscaleThreshold) then GrayBand(rgb)
    else ColorCategories[FirstArgMin(ChromaticDistances(rgb))].category
  }

  /** A grey is black below a channel sum of 150, white above 600, and
      grey in between. */
  lemma ClassifyGray(rgb: Rgb)
    requires IsGrayscale(rgb, GrayscaleThreshold)
    ensures Classify(rgb) == Black <==> rgb.r + rgb.g + rgb.b < 150
    ensures Classify(rgb) == White <==> rgb.r + rgb.g + rgb.b > 600
    ensures Classify(rgb) == Gray <==> 150 <= rgb.r + rgb.g + rgb.b <= 600
  {
  }

  lemma ChromaticOrdinals()
    ensures forall k :: 0 <= k < ChromaticCount ==>
      ColorCategories[k].category.Ordinal() == k && !Achromatic(ColorCategories[k].category)
  {
  }

  /** Any other colour gets one of the nine chromatic categories: one whose
      reference is at least as near as every other chromatic reference and
      strictly nearer than every reference listed before it. */
  lemma ClassifyChromatic(rgb: Rgb)
    requires !IsGrayscale(rgb, GrayscaleThreshold)
    ensures var c := Classify(rgb);
      && c.Ordinal() < ChromaticCount
      && !Achromatic(c) && c != Other
      && ColorCategories[c.Ordinal()].category == c
      && (forall k :: 0 <= k < ChromaticCount ==>
            SquaredDistance(ToPoint(rgb), ToPoint(ColorCategories[c.Ordinal()].rgb))
              <= SquaredDistance(ToPoint(rgb), ToPoint(ColorCategories[k].rgb)))
      && (forall k :: 0 <= k < c.Ordinal() ==>
            SquaredDistance(ToPoint(rgb), ToPoint(ColorCategories[k].rgb))
              > SquaredDistance(ToPoint(rgb), ToPoint(ColorCategories[c.Ordinal()].rgb)))
  {
    ChromaticOrdinals();
    var ds := ChromaticDistances(rgb);
    var m := FirstArgMin(ds);
    assert Classify(rgb) == ColorCategories[m].category;
  }

  /** Every reference colour is classified as its own category. */
  lemma ClassifyReferences()
    ensures forall k :: 0 <= k < |ColorCategories| ==>
      Classify(ColorCategories[k].rgb) == ColorCategories[k].category
  {
    forall k | 0 <= k < |ColorCategories|
      ensures Classify(ColorCategories[k].rgb) == ColorCategories[k].category
    {
      var ref := ColorCategories[k];
      if k < ChromaticCount {
        assert !IsGrayscale(ref.rgb, GrayscaleThreshold);
        var ds := ChromaticDistances(ref.rgb);
        SquaredDistanceZero(ToPoint(ref.rgb), ToPoint(ref.rgb));
        assert ds[k] == 0.0;
        forall j | 0 <= j < ChromaticCount && j != k ensures ds[j] > 0.0 {
          SquaredDistanceZero(ToPoint(ref.rgb), ToPoint(ColorCategories[j].rgb));
        }
        assert FirstArgMin(ds) == k;
      }
    }
  }

  /** The skipped entries are exactly the last three. */
  lemma AchromaticPositions()
    ensures |ColorCategories| == 12
    ensures forall i :: 0 <= i < |ColorCategories| ==> (Achromatic(ColorCategories[i].category) <==> i >= ChromaticCount)
  {
  }

  /** Extending the scanned prefix by one entry: the running argmin moves
      only to a strictly smaller entry. */
  lemma ArgMinStep(ds: seq<real>, i: nat)
    requires 0 < i < |ds|
    ensures FirstArgMin(ds[..i + 1]) == if ds[i] < ds[FirstArgMin(ds[..i])] then i else FirstArgMin(ds[..i])
  {
    assert ds[..i + 1][..i] == ds[..i];
  }

  /** `classify_color`: the grey test, then a scan of the references with a
      running minimum.  `found` stands for the minimum no longer being
      infinite. */
  method ClassifyColor(ops: RealOps, rgb: Rgb) returns (category: string)
    requires Sound(ops)
    ensures category == Classify(rgb).Value()
  {
    if IsGrayscale(rgb, GrayscaleThreshold) {
      var brightness := (rgb.r + rgb.g + rgb.b) as real / 3.0;
      if brightness < 50.0 {
        return Black.Value();
      } else if brightness > 200.0 {
        return White.Value();
      } else {
        return Gray.Value();
      }
    }
    var ds := ChromaticDistances(rgb);
    AchromaticPositions();
    var minDistance := 0.0;
    var found := false;
    var closest := Other;
    ghost var best := 0;
    for i := 0 to |ColorCategories|
      invariant found <==> i > 0
      invariant found ==>
        var m := if i < ChromaticCount then i else ChromaticCount;
        && best == FirstArgMin(ds[..m])
        && closest == ColorCategories[best].category
        && minDistance == ops.sqrt(ds[best])
    {
      var ref := ColorCategories[i];
      if Achromatic(ref.category) {
        continue;
      }
      var distance := EuclideanDistance(ops, rgb, ref.rgb);
      if found {
        SqrtOrder(ops, ds[i], ds[best]);
        ArgMinStep(ds, i);
      } else {
        assert ds[..1] == [ds[0]];
      }
      if !found || distance < minDistance {
        minDistance := distance;
        closest := ref.category;
        best := i;
        found := true;
      }
    }
    assert ds[..ChromaticCount] == ds;
    category := closest.Value();
  }

  // ---------------------------------------------------------------------
  // Building the colour list

  /** Python's int() on a float: truncation toward zero. */
  function Trunc(x: real): int
  {
    if x >= 0.0 then x.Floor else -((-x).Floor)
  }

  function CenterRgb(c: Point): Rgb
  {
    Rgb(Trunc(c.x), Trunc(c.y), Trunc(c.z))
  }

  /** A centre inside the channel range gives a valid RGB triple. */
  lemma CenterRgbValid(c: Point)
    requires InBox(c, 0.0, 255.0)
    ensures CenterRgb(c).Valid()
  {
  }

  /** The ColorInfo of cluster i. */
  function ClusterColor(centers: seq<Point>, labels: seq<int>, i: nat): ColorInfo
    requires i < |centers| && |labels| > 0
  {
    var rgb := CenterRgb(centers[i]);
    ColorInfo(rgb, Round2(Share(labels, i)), Classify(rgb).Value())
  }

  function Percentage(c: ColorInfo): real { c.percentage }

  /** The loop over `range(self.n_colors)` building `colors`. */
  method BuildColors(ops: RealOps, centers: seq<Point>, labels: seq<int>) returns (colors: seq<ColorInfo>)
    requires Sound(ops) && |labels| > 0
    ensures |colors| == |centers|
    ensures forall i :: 0 <= i < |centers| ==> colors[i] == ClusterColor(centers, labels, i)
    ensures forall i :: 0 <= i < |colors| ==> IsCents(colors[i].percentage)
    ensures LabelsBelow(labels, |centers|) ==>
      Abs(Sum(Keys(colors, Percentage)) - 100.0) <= |centers| as real * 0.005
  {
    colors := [];
    for i := 0 to |centers|
      invariant |colors| == i
      invariant forall j :: 0 <= j < i ==> colors[j] == ClusterColor(centers, labels, j)
    {
      var rgb := CenterRgb(centers[i]);
      var percentage := Share(labels, i);
      var category := ClassifyColor(ops, rgb);
      colors := colors + [ColorInfo(rgb, Round2(percentage), category)];
    }
    ClusterColorsTotal(centers, labels, colors);
  }

  /** The colours of the clusters have shares in cents that total within
      n times 0.005 of 100 when every label names a cluster. */
  lemma ClusterColorsTotal(centers: seq<Point>, labels: seq<int>, colors: seq<ColorInfo>)
    requires |labels| > 0 && |colors| == |centers|
    requires forall i :: 0 <= i < |centers| ==> colors[i] == ClusterColor(centers, labels, i)
    ensures forall i :: 0 <= i < |colors| ==> IsCents(colors[i].percentage)
    ensures LabelsBelow(labels, |centers|) ==>
      Abs(Sum(Keys(colors, Percentage)) - 100.0) <= |centers| as real * 0.005
  {
    var shares, keys := Shares(labels, |centers|), Keys(colors, Percentage);
    forall i | 0 <= i < |shares|
      ensures keys[i] == Round2(shares[i])
    {
      assert colors[i] == ClusterColor(centers, labels, i);
    }
    RoundedSum(shares, keys);
    if LabelsBelow(labels, |centers|) {
      SharesTotal(labels, |centers|);
    }
  }

  // ---------------------------------------------------------------------
  // The correction to 100 percent

  ghost predicate AllCents(colors: seq<ColorInfo>)
  {
    forall i :: 0 <= i < |colors| ==> IsCents(colors[i].percentage)
  }

  lemma KeysCents(colors: seq<ColorInfo>)
    requires AllCents(colors)
    ensures IsCents(Sum(Keys(colors, Percentage)))
  {
    SumOfCents(Keys(colors, Percentage));
  }

  /** The list after the correction: when the rounded shares miss 100 by
      more than 0.001, the first largest entry absorbs the rounded
      difference. */
  function Corrected(colors: seq<ColorInfo>): (r: seq<ColorInfo>)
    ensures |r| == |colors|
    ensures forall i :: 0 <= i < |r| ==> r[i].rgb == colors[i].rgb && r[i].category == colors[i].category
    ensures |colors| > 0 ==> forall i :: 0 <= i < |r| && i != FirstArgMax(Keys(colors, Percentage)) ==> r[i] == colors[i]
    ensures |colors| > 0 ==> Abs(Sum(Keys(r, Percentage)) - 100.0) <= 0.01
    ensures |colors| > 0 && AllCents(colors) ==> Sum(Keys(r, Percentage)) == 100.0 && AllCents(r)
  {
    var ps := Keys(colors, Percentage);
    var total := Sum(ps);
    if Abs(total - 100.0) > 0.001 && |colors| > 0 then
      var diff := Round2(100.0 - total);
      var m := FirstArgMax(ps);
      var c := colors[m];
      var p' := Round2(c.percentage + diff);
      var r := colors[m := ColorInfo(c.rgb, p', c.category)];
      CorrectedSum(colors, m, p');
      CorrectedCents(colors, m, diff, p');
      r
    else
      UncorrectedSum(colors);
      colors
  }

  lemma CorrectedSum(colors: seq<ColorInfo>, m: nat, p': real)
    requires m < |colors|
    ensures var c := colors[m];
      Sum(Keys(colors[m := ColorInfo(c.rgb, p', c.category)], Percentage))
        == Sum(Keys(colors, Percentage)) + (p' - c.percentage)
  {
    var c := colors[m];
    var ps := Keys(colors, Percentage);
    assert Keys(colors[m := ColorInfo(c.rgb, p', c.category)], Percentage) == ps[m := ps[m] + (p' - c.percentage)];
    SumUpdate(ps, m, p' - c.percentage);
  }

  lemma CorrectedCents(colors: seq<ColorInfo>, m: nat, diff: real, p': real)
    requires m < |colors|
    requires diff == Round2(100.0 - Sum(Keys(colors, Percentage)))
    requires p' == Round2(colors[m].percentage + diff)
    ensures AllCents(colors) ==> IsCents(p') && Sum(Keys(colors, Percentage)) + (p' - colors[m].percentage) == 100.0
  {
    if AllCents(colors) {
      var total := Sum(Keys(colors, Percentage));
      KeysCents(colors);
      assert IsCents(100.0) by { assert (100.0 * 100.0).Floor == 10000; }
      CentsSum(100.0, total);
      Round2OfCents(100.0 - total);
      CentsSum(colors[m].percentage, diff);
      Round2OfCents(colors[m].percentage + diff);
    }
  }

  lemma UncorrectedSum(colors: seq<ColorInfo>)
    ensures var total := Sum(Keys(colors, Percentage));
      |colors| > 0 && AllCents(colors) && Abs(total - 100.0) <= 0.001 ==> total == 100.0
  {
    var total := Sum(Keys(colors, Percentage));
    if |colors| > 0 && AllCents(colors) && Abs(total - 100.0) <= 0.001 {
      KeysCents(colors);
      assert IsCents(100.0) by { assert (100.0 * 100.0).Floor == 10000; }
      CentsClose(total, 100.0);
    }
  }

  /** Lines 150-159 of `extract_colors`: the first largest entry absorbs
      the rounded difference when the total misses 100 by more than 0.001. */
  method AdjustLargest(colors: seq<ColorInfo>) returns (cs: seq<ColorInfo>)
    ensures cs == Corrected(colors)
  {
    cs := colors;
    var total := Sum(Keys(cs, Percentage));
    if Abs(total - 100.0) > 0.001 && |cs| > 0 {
      var diff := Round2(100.0 - total);
      var maxIdx := FirstArgMax(Keys(cs, Percentage));
      cs := cs[maxIdx := ColorInfo(cs[maxIdx].rgb, Round2(cs[maxIdx].percentage + diff), cs[maxIdx].category)];
    }
  }

  /** Line 162 of `extract_colors`: `colors.sort(key=..., reverse=True)`. */
  method SortColors(cs: seq<ColorInfo>) returns (sorted: seq<ColorInfo>)
    ensures sorted == SortDesc(cs, Percentage) && |sorted| == |cs|
    ensures SortedDesc(sorted, Percentage)
    ensures multiset(sorted) == multiset(cs)
    ensures Sum(Keys(sorted, Percentage)) == Sum(Keys(cs, Percentage))
  {
    SortDescFacts(cs, Percentage);
    sorted := SortDesc(cs, Percentage);
  }

  lemma SortedLength(cs: seq<ColorInfo>)
    ensures |SortDesc(cs, Percentage)| == |cs|
  {
    SortDescFacts(cs, Percentage);
  }

  /** Lines 150-162 of `extract_colors`: correct, then sort by descending
      share. */
  method CorrectPercentages(colors: seq<ColorInfo>) returns (sorted: seq<ColorInfo>)
    ensures sorted == SortDesc(Corrected(colors), Percentage)
    ensures SortedDesc(sorted, Percentage)
    ensures multiset(sorted) == multiset(Corrected(colors))
  {
    var cs := AdjustLargest(colors);
    sorted := SortColors(cs);
  }

  /** The list `extract_colors` returns, corrected and then sorted, keeps
      the corrected total: within 0.01 of 100, and exactly 100 when the
      shares are in cents. */
  lemma SortedTotals(colors: seq<ColorInfo>)
    ensures |colors| > 0 ==> Abs(Sum(Keys(SortDesc(Corrected(colors), Percentage), Percentage)) - 100.0) <= 0.01
    ensures |colors| > 0 && AllCents(colors) ==> Sum(Keys(SortDesc(Corrected(colors), Percentage), Percentage)) == 100.0
  {
    var cs := Corrected(colors);
    var total := Sum(Keys(cs, Percentage));
    SortDescKeepsSum(cs, Percentage);
    BoundsCarry(Sum(Keys(SortDesc(cs, Percentage), Percentage)), total, |colors| > 0, AllCents(colors));
  }

  /** A total equal to one within 0.01 of 100 (exactly 100 in the cents
      case) has the same bounds. */
  lemma BoundsCarry(a: real, total: real, nonEmpty: bool, cents: bool)
    requires a == total
    requires nonEmpty ==> Abs(total - 100.0) <= 0.01
    requires nonEmpty && cents ==> total == 100.0
    ensures nonEmpty ==> Abs(a - 100.0) <= 0.01
    ensures nonEmpty && cents ==> a == 100.0
  {
  }

  /** `get_dominant_category_from_colors`. */
  function DominantCategory(colors: seq<ColorInfo>): string
  {
    if |colors| == 0 then Other.Value() else colors[0].category
  }

  /** After the sort, the dominant category belongs to a colour whose share
      is the largest of the corrected list; without colours it is "other". */
  lemma DominantIsLargest(colors: seq<ColorInfo>)
    ensures var sorted := SortDesc(Corrected(colors), Percentage);
      && (|colors| == 0 ==> DominantCategory(sorted) == Other.Value())
      && (|colors| > 0 ==>
            exists c :: (c in Corrected(colors) && DominantCategory(sorted) == c.category &&
              forall d :: d in Corrected(colors) ==> d.percentage <= c.percentage))
  {
    var cs := Corrected(colors);
    SortedLength(cs);
    if |colors| > 0 {
      SortDescFirstIsMax(cs, Percentage);
      var c := SortDesc(cs, Percentage)[0];
      assert forall d :: d in cs ==> d.percentage <= c.percentage;
    }
  }

  // ---------------------------------------------------------------------
  // K-means and the whole extraction

  /** `_simple_kmeans` of the simple mode: no clamping of the cluster count;
      the initial centres are the pixels at the first `nClusters` positions
      of `order`. */
  method SimpleKMeans(pixels: seq<Point>, nClusters: nat, order: seq<nat>,
                      close: (seq<Point>, seq<Point>) -> bool, maxIter: nat)
    returns (centers: seq<Point>, labels: seq<int>)
    requires 1 <= nClusters <= |pixels| && IsOrdering(order, |pixels|) && maxIter >= 1
    ensures Clustering(centers, labels) == Run(pixels, Pick(pixels, order[..nClusters]), close, maxIter)
    ensures |centers| == nClusters && |labels| == |pixels|
    ensures LabelsBelow(labels, nClusters)
  {
    var init := Pick(pixels, order[..nClusters]);
    centers, labels := Iterate(pixels, init, close, maxIter);
  }

  /** The number of K-means rounds `extract_colors` asks for. */
  const MaxIterations: nat := 100

  function ToPoints(pixels: seq<Rgb>): (ps: seq<Point>)
    ensures |ps| == |pixels| && forall i :: 0 <= i < |pixels| ==> ps[i] == ToPoint(pixels[i])
  {
    seq(|pixels|, i requires 0 <= i < |pixels| => ToPoint(pixels[i]))
  }

  /** The K-means run of `extract_colors` on the pixels, from the centres
      at the first `nColors` positions of the shuffled order. */
  function KMeansOf(pixels: seq<Rgb>, nColors: int, order: seq<nat>, close: (seq<Point>, seq<Point>) -> bool): (c: Clustering)
    requires IsOrdering(order, |pixels|) && 1 <= nColors <= |pixels|
    ensures |c.centers| == nColors && |c.labels| == |pixels|
  {
    var points := ToPoints(pixels);
    RunSizes(points, Pick(points, order[..nColors]), close, MaxIterations);
    Run(points, Pick(points, order[..nColors]), close, MaxIterations)
  }

  /** One colour per centre of a clustering, in centre order. */
  function ColorsOf(c: Clustering): (colors: seq<ColorInfo>)
    requires |c.labels| > 0
    ensures |colors| == |c.centers|
    ensures forall i :: 0 <= i < |colors| ==> colors[i] == ClusterColor(c.centers, c.labels, i)
  {
    seq(|c.centers|, i requires 0 <= i < |c.centers| => ClusterColor(c.centers, c.labels, i))
  }

  ghost predicate ValidPixels(pixels: seq<Rgb>)
  {
    forall i :: 0 <= i < |pixels| ==> pixels[i].Valid()
  }

  /** `extract_colors` from the resized pixels on.  numpy refuses a cluster
      count below one or above the pixel count; the source turns that into
      a ValueError, here a Failure carrying the image path. */
  method ExtractColors(ops: RealOps, imagePath: string, pixels: seq<Rgb>, nColors: int, order: seq<nat>,
                       close: (seq<Point>, seq<Point>) -> bool)
    returns (result: Result<ColorExtractionResult, string>)
    requires Sound(ops) && IsOrdering(order, |pixels|)
    ensures result.Failure? <==> nColors < 1 || nColors > |pixels|
    ensures result.Success? ==>
      var r := result.value;
      && r.imagePath == imagePath
      && |r.colors| == nColors
      && SortedDesc(r.colors, Percentage)
      && Sum(Keys(r.colors, Percentage)) == 100.0
      && r.dominantCategory == r.colors[0].category
      && (forall i :: 0 <= i < |r.colors| ==> r.colors[i].category in AllCategoryValues())
      && (ValidPixels(pixels) ==> forall i :: 0 <= i < |r.colors| ==> r.colors[i].rgb.Valid())
    ensures result.Success? ==>
      result.value.colors == SortDesc(Corrected(ColorsOf(KMeansOf(pixels, nColors, order, close))), Percentage)
  {
    if nColors < 1 || nColors > |pixels| {
      return Failure(imagePath);
    }
    var sorted := DominantColors(ops, pixels, nColors, order, close);
    result := Success(ColorExtractionResult(imagePath, sorted, DominantCategory(sorted)));
  }

  /** The clustering and the percentages of `extract_colors`: `nColors`
      colours sorted by descending share, the shares adding up to 100. */
  method DominantColors(ops: RealOps, pixels: seq<Rgb>, nColors: int, order: seq<nat>,
                        close: (seq<Point>, seq<Point>) -> bool)
    returns (sorted: seq<ColorInfo>)
    requires Sound(ops) && IsOrdering(order, |pixels|) && 1 <= nColors <= |pixels|
    ensures |sorted| == nColors
    ensures SortedDesc(sorted, Percentage) && Sum(Keys(sorted, Percentage)) == 100.0
    ensures WellFormed(sorted, ValidPixels(pixels))
    ensures sorted == SortDesc(Corrected(ColorsOf(KMeansOf(pixels, nColors, order, close))), Percentage)
  {
    var colors := ClusterColors(ops, pixels, nColors, order, close);
    sorted := CorrectPercentages(colors);
    SortedTotals(colors);
    SortedLength(Corrected(colors));
    SortedWellFormed(colors, ValidPixels(pixels));
  }

  /** Lines 121-148 of `extract_colors`: one colour per K-means centre,
      with its share of the pixels rounded to cents. */
  method ClusterColors(ops: RealOps, pixels: seq<Rgb>, nColors: int, order: seq<nat>,
                       close: (seq<Point>, seq<Point>) -> bool)
    returns (colors: seq<ColorInfo>)
    requires Sound(ops) && IsOrdering(order, |pixels|) && 1 <= nColors <= |pixels|
    ensures |colors| == nColors && AllCents(colors)
    ensures WellFormed(colors, ValidPixels(pixels))
    ensures colors == ColorsOf(KMeansOf(pixels, nColors, order, close))
  {
    var points := ToPoints(pixels);
    var centers, labels := SimpleKMeans(points, nColors, order, close, MaxIterations);
    colors := BuildColors(ops, centers, labels);
    if ValidPixels(pixels) {
      ValidPointsInBox(pixels);
      RunInBox(points, Pick(points, order[..nColors]), close, MaxIterations, 0.0, 255.0);
    }
    ClusterColorsWellFormed(centers, labels, colors, ValidPixels(pixels));
    assert colors == ColorsOf(Clustering(centers, labels));
  }

  /** Every colour has a category value, and a valid RGB triple when asked
      for. */
  ghost predicate WellFormed(colors: seq<ColorInfo>, valid: bool)
  {
    forall i :: 0 <= i < |colors| ==> colors[i].category in AllCategoryValues() && (valid ==> colors[i].rgb.Valid())
  }

  lemma ClusterColorsWellFormed(centers: seq<Point>, labels: seq<int>, colors: seq<ColorInfo>, valid: bool)
    requires |labels| > 0 && |colors| == |centers|
    requires forall i :: 0 <= i < |centers| ==> colors[i] == ClusterColor(centers, labels, i)
    requires valid ==> AllInBox(centers, 0.0, 255.0)
    ensures WellFormed(colors, valid)
  {
    forall i | 0 <= i < |colors|
      ensures colors[i].category in AllCategoryValues() && (valid ==> colors[i].rgb.Valid())
    {
      assert Classify(CenterRgb(centers[i])).Value() in AllCategoryValues();
      if valid {
        CenterRgbValid(centers[i]);
      }
    }
  }

  /** The correction and the sort keep every colour's RGB value and category. */
  lemma SortedWellFormed(colors: seq<ColorInfo>, valid: bool)
    requires WellFormed(colors, valid)
    ensures WellFormed(SortDesc(Corrected(colors), Percentage), valid)
  {
    var corrected := Corrected(colors);
    var sorted := SortDesc(corrected, Percentage);
    SortDescFacts(corrected, Percentage);
    forall i | 0 <= i < |sorted|
      ensures sorted[i].category in AllCategoryValues() && (valid ==> sorted[i].rgb.Valid())
    {
      assert sorted[i] in multiset(corrected);
      var j :| 0 <= j < |corrected| && corrected[j] == sorted[i];
    }
  }

  lemma ValidPointsInBox(pixels: seq<Rgb>)
    requires ValidPixels(pixels)
    ensures AllInBox(ToPoints(pixels), 0.0, 255.0)
  {
  }
}
