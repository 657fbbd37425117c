/**
 * The K-means loop both colour extractors run over the pixels of a resized
 * image: assign every pixel to its nearest centre (squared Euclidean
 * distance, the first centre winning a tie as with numpy's argmin), move
 * every centre to the mean of its pixels (a centre without pixels stays
 * where it is), and stop when the centres no longer move or after
 * `maxIter` rounds.
 *
 * The seeded random choice of the first centres is replaced by an index
 * order handed in by the caller, and `np.allclose` by a predicate `close`.
 */
module KMeans {
  import opened RealMath
  import opened SeqUtil

  /** A pixel or a centre: three colour channels. */
  datatype Point = Point(x: real, y: real, z: real)

  /** `np.sum((pixel - center) ** 2)`. */
  function SquaredDistance(p: Point, c: Point): (d: real)
    ensures d >= 0.0
  {
    (p.x - c.x) * (p.x - c.x) + (p.y - c.y) * (p.y - c.y) + (p.z - c.z) * (p.z - c.z)
  }

  lemma SquareZero(t: real)
    ensures t * t >= 0.0
    ensures t * t == 0.0 ==> t == 0.0
  {
    if t != 0.0 {
      assert (t * t) / t == t;
    }
  }

  /** A pixel is at distance zero exactly from itself. */
  lemma SquaredDistanceZero(p: Point, c: Point)
    ensures SquaredDistance(p, c) == 0.0 <==> p == c
  {
    SquareZero(p.x - c.x);
    SquareZero(p.y - c.y);
    SquareZero(p.z - c.z);
  }

  function Distances(p: Point, centers: seq<Point>): (ds: seq<real>)
    ensures |ds| == |centers|
    ensures forall j :: 0 <= j < |centers| ==> ds[j] == SquaredDistance(p, centers[j])
  {
    seq(|centers|, j requires 0 <= j < |centers| => SquaredDistance(p, centers[j]))
  }

  /** `np.argmin(distances, axis=1)` for one pixel. */
  function Nearest(p: Point, centers: seq<Point>): (j: nat)
    requires |centers| > 0
    ensures j < |centers|
    ensures forall i :: 0 <= i < |centers| ==> SquaredDistance(p, centers[j]) <= SquaredDistance(p, centers[i])
    ensures forall i :: 0 <= i < j ==> SquaredDistance(p, centers[i]) > SquaredDistance(p, centers[j])
  {
    var ds := Distances(p, centers);
    FirstArgMin(ds)
  }

  /** The assignment step: every label is the index of the first centre
      nearest to its pixel. */
  function Assign(pixels: seq<Point>, centers: seq<Point>): (labels: seq<int>)
    requires |centers| > 0
    ensures |labels| == |pixels|
    ensures forall i :: 0 <= i < |pixels| ==> 0 <= labels[i] < |centers|
    ensures forall i, j :: 0 <= i < |pixels| && 0 <= j < |centers| ==>
      SquaredDistance(pixels[i], centers[labels[i]]) <= SquaredDistance(pixels[i], centers[j])
    ensures forall i, j :: 0 <= i < |pixels| && 0 <= j < labels[i] ==>
      SquaredDistance(pixels[i], centers[j]) > SquaredDistance(pixels[i], centers[labels[i]])
  {
    seq(|pixels|, i requires 0 <= i < |pixels| => Nearest(pixels[i], centers) as int)
  }

  /** `pixels[labels == c]`: the pixels labelled c, in order. */
  function Members(pixels: seq<Point>, labels: seq<int>, c: int): (ms: seq<Point>)
    requires |labels| == |pixels|
    ensures |ms| == Count(labels, c)
    ensures forall q :: q in ms ==> q in pixels
    decreases |pixels|
  {
    if |pixels| == 0 then []
    else
      var n := |pixels| - 1;
      var rest := Members(pixels[..n], labels[..n], c);
      if labels[n] == c then rest + [pixels[n]] else rest
  }

  function Xs(ps: seq<Point>): (s: seq<real>)
    ensures |s| == |ps| && forall i :: 0 <= i < |ps| ==> s[i] == ps[i].x
  {
    seq(|ps|, i requires 0 <= i < |ps| => ps[i].x)
  }

  function Ys(ps: seq<Point>): (s: seq<real>)
    ensures |s| == |ps| && forall i :: 0 <= i < |ps| ==> s[i] == ps[i].y
  {
    seq(|ps|, i requires 0 <= i < |ps| => ps[i].y)
  }

  function Zs(ps: seq<Point>): (s: seq<real>)
    ensures |s| == |ps| && forall i :: 0 <= i < |ps| ==> s[i] == ps[i].z
  {
    seq(|ps|, i requires 0 <= i < |ps| => ps[i].z)
  }

  /** `pixels[mask].mean(axis=0)`. */
  function Centroid(ps: seq<Point>): Point
    requires |ps| > 0
  {
    Point(Mean(Xs(ps)), Mean(Ys(ps)), Mean(Zs(ps)))
  }

  /** The new position of centre c. */
  function Moved(pixels: seq<Point>, labels: seq<int>, centers: seq<Point>, c: nat): Point
    requires |labels| == |pixels| && c < |centers|
  {
    var ms := Members(pixels, labels, c);
    if |ms| > 0 then Centroid(ms) else centers[c]
  }

  /** The update step: every centre moves to the mean of its pixels, and a
      centre that no pixel chose stays where it was. */
  function Update(pixels: seq<Point>, labels: seq<int>, centers: seq<Point>): (next: seq<Point>)
    requires |labels| == |pixels|
    ensures |next| == |centers|
    ensures forall c :: 0 <= c < |centers| && Count(labels, c) == 0 ==> next[c] == centers[c]
    ensures forall c :: 0 <= c < |centers| && Count(labels, c) > 0 ==>
      next[c] == Centroid(Members(pixels, labels, c))
  {
    seq(|centers|, c requires 0 <= c < |centers| => Moved(pixels, labels, centers, c))
  }

  /** What the loop returns: the final centres and the last labels. */
  datatype Clustering = Clustering(centers: seq<Point>, labels: seq<int>)

  /** `for _ in range(fuel)`: assign, update, stop when the centres are
      close to their update (returning the centres before it), otherwise
      continue from the updated centres; after the last round the updated
      centres are returned. */
  function Run(pixels: seq<Point>, centers: seq<Point>, close: (seq<Point>, seq<Point>) -> bool, fuel: nat): Clustering
    requires |centers| > 0 && fuel >= 1
    decreases fuel
  {
    var labels := Assign(pixels, centers);
    var next := Update(pixels, labels, centers);
    if close(centers, next) then Clustering(centers, labels)
    else if fuel == 1 then Clustering(next, labels)
    else Run(pixels, next, close, fuel - 1)
  }

  /** How many rounds Run performs. */
  function Rounds(pixels: seq<Point>, centers: seq<Point>, close: (seq<Point>, seq<Point>) -> bool, fuel: nat): nat
    requires |centers| > 0 && fuel >= 1
    decreases fuel
  {
    var next := Update(pixels, Assign(pixels, centers), centers);
    if close(centers, next) || fuel == 1 then 1
    else 1 + Rounds(pixels, next, close, fuel - 1)
  }

  /** The loop stops after at least one and at most `fuel` rounds. */
  lemma {:induction false} RoundsBound(pixels: seq<Point>, centers: seq<Point>, close: (seq<Point>, seq<Point>) -> bool, fuel: nat)
    requires |centers| > 0 && fuel >= 1
    ensures 1 <= Rounds(pixels, centers, close, fuel) <= fuel
    decreases fuel
  {
    var next := Update(pixels, Assign(pixels, centers), centers);
    if !close(centers, next) && fuel > 1 {
      RoundsBound(pixels, next, close, fuel - 1);
    }
  }

  /** The result has one centre per initial centre and one label per pixel,
      and the labels are the nearest-centre assignment for some set of
      centres `prior` of which the returned centres are either the
      unchanged copy (convergence) or the update. */
  lemma {:induction false} RunShape(pixels: seq<Point>, centers: seq<Point>, close: (seq<Point>, seq<Point>) -> bool, fuel: nat)
    returns (prior: seq<Point>)
    requires |centers| > 0 && fuel >= 1
    ensures var r := Run(pixels, centers, close, fuel);
      && |r.centers| == |centers|
      && |r.labels| == |pixels|
      && (forall i :: 0 <= i < |pixels| ==> 0 <= r.labels[i] < |centers|)
      && |prior| == |centers|
      && r.labels == Assign(pixels, prior)
      && (r.centers == prior || r.centers == Update(pixels, r.labels, prior))
    decreases fuel
  {
    var labels := Assign(pixels, centers);
    var next := Update(pixels, labels, centers);
    if close(centers, next) || fuel == 1 {
      prior := centers;
    } else {
      prior := RunShape(pixels, next, close, fuel - 1);
    }
  }

  /** The sizes of RunShape without its witness, for use in expressions. */
  lemma RunSizes(pixels: seq<Point>, centers: seq<Point>, close: (seq<Point>, seq<Point>) -> bool, fuel: nat)
    requires |centers| > 0 && fuel >= 1
    ensures |Run(pixels, centers, close, fuel).centers| == |centers|
    ensures |Run(pixels, centers, close, fuel).labels| == |pixels|
  {
    var _ := RunShape(pixels, centers, close, fuel);
  }

  /** Every coordinate of the point lies in [lo, hi]. */
  predicate InBox(p: Point, lo: real, hi: real)
  {
    lo <= p.x <= hi && lo <= p.y <= hi && lo <= p.z <= hi
  }

  predicate AllInBox(ps: seq<Point>, lo: real, hi: real)
  {
    forall i :: 0 <= i < |ps| ==> InBox(ps[i], lo, hi)
  }

  /** The mean of points in a box is in the box. */
  lemma CentroidInBox(ps: seq<Point>, lo: real, hi: real)
    requires |ps| > 0 && AllInBox(ps, lo, hi)
    ensures InBox(Centroid(ps), lo, hi)
  {
    MeanBounds(Xs(ps), lo, hi);
    MeanBounds(Ys(ps), lo, hi);
    MeanBounds(Zs(ps), lo, hi);
  }

  lemma UpdateInBox(pixels: seq<Point>, labels: seq<int>, centers: seq<Point>, lo: real, hi: real)
    requires |labels| == |pixels|
    requires AllInBox(pixels, lo, hi) && AllInBox(centers, lo, hi)
    ensures AllInBox(Update(pixels, labels, centers), lo, hi)
  {
    var next := Update(pixels, labels, centers);
    forall c | 0 <= c < |centers|
      ensures InBox(next[c], lo, hi)
    {
      var ms := Members(pixels, labels, c);
      if |ms| > 0 {
        forall i | 0 <= i < |ms| ensures InBox(ms[i], lo, hi) {
          assert ms[i] in pixels;
        }
        CentroidInBox(ms, lo, hi);
      }
    }
  }

  /** Centres that start among the pixels' channel range stay inside it:
      means of pixels never leave the range of the pixels. */
  lemma {:induction false} RunInBox(pixels: seq<Point>, centers: seq<Point>, close: (seq<Point>, seq<Point>) -> bool, fuel: nat, lo: real, hi: real)
    requires |centers| > 0 && fuel >= 1
    requires AllInBox(pixels, lo, hi) && AllInBox(centers, lo, hi)
    ensures AllInBox(Run(pixels, centers, close, fuel).centers, lo, hi)
    decreases fuel
  {
    var labels := Assign(pixels, centers);
    var next := Update(pixels, labels, centers);
    UpdateInBox(pixels, labels, centers, lo, hi);
    if !close(centers, next) && fuel > 1 {
      RunInBox(pixels, next, close, fuel - 1, lo, hi);
    }
  }

  /** `np.random.choice(n, k, replace=False)` is the first k entries of a
      random ordering of 0..n-1; the ordering is what the caller supplies. */
  predicate IsOrdering(order: seq<nat>, n: nat)
  {
    && |order| == n
    && (forall i :: 0 <= i < |order| ==> order[i] < n)
    && (forall i, j :: 0 <= i < j < |order| ==> order[i] != order[j])
  }

  /** `pixels[indices]`. */
  function Pick(pixels: seq<Point>, indices: seq<nat>): (cs: seq<Point>)
    requires forall i :: 0 <= i < |indices| ==> indices[i] < |pixels|
    ensures |cs| == |indices|
    ensures forall i :: 0 <= i < |indices| ==> cs[i] == pixels[indices[i]]
  {
    seq(|indices|, i requires 0 <= i < |indices| => pixels[indices[i]])
  }

  /** One pass of `for i in range(n_clusters)` building `new_centers`. */
  method UpdateCenters(pixels: seq<Point>, labels: seq<int>, centers: seq<Point>) returns (next: seq<Point>)
    requires |labels| == |pixels|
    ensures next == Update(pixels, labels, centers)
  {
    next := [];
    for c := 0 to |centers|
      invariant |next| == c
      invariant forall j :: 0 <= j < c ==> next[j] == Update(pixels, labels, centers)[j]
    {
      var ms := Members(pixels, labels, c);
      if |ms| > 0 {
        next := next + [Centroid(ms)];
      } else {
        next := next + [centers[c]];
      }
    }
  }

  /** The iteration shared by both extractors, started from `init`. */
  method Iterate(pixels: seq<Point>, init: seq<Point>, close: (seq<Point>, seq<Point>) -> bool, maxIter: nat)
    returns (centers: seq<Point>, labels: seq<int>)
    requires |init| > 0 && maxIter >= 1
    ensures Clustering(centers, labels) == Run(pixels, init, close, maxIter)
    ensures |centers| == |init| && |labels| == |pixels|
    ensures forall i :: 0 <= i < |pixels| ==> 0 <= labels[i] < |init|
  {
    centers := init;
    labels := [];
    var it := 0;
    var done := false;
    while it < maxIter && !done
      invariant 0 <= it <= maxIter
      invariant |centers| == |init|
      invariant !done && it < maxIter ==> Run(pixels, centers, close, maxIter - it) == Run(pixels, init, close, maxIter)
      invariant done || it == maxIter ==> Clustering(centers, labels) == Run(pixels, init, close, maxIter)
      decreases maxIter - it
    {
      labels := Assign(pixels, centers);
      var next := UpdateCenters(pixels, labels, centers);
      if close(centers, next) {
        done := true;
      } else {
        centers := next;
      }
      it := it + 1;
    }
    var prior := RunShape(pixels, init, close, maxIter);
  }

  /** Every label names one of k clusters. */
  predicate LabelsBelow(labels: seq<int>, k: int)
  {
    forall i :: 0 <= i < |labels| ==> 0 <= labels[i] < k
  }

  /** `counts[idx] / total_pixels * 100`, or 0.0 for a label nobody has. */
  function Share(labels: seq<int>, c: int): real
    requires |labels| > 0
  {
    if Count(labels, c) > 0 then Count(labels, c) as real / |labels| as real * 100.0 else 0.0
  }

  /** The shares of clusters 0, 1, ..., k-1. */
  function Shares(labels: seq<int>, k: nat): (ss: seq<real>)
    requires |labels| > 0
    ensures |ss| == k
    ensures forall c :: 0 <= c < k ==> ss[c] == Share(labels, c)
  {
    seq(k, c requires 0 <= c < k => Share(labels, c))
  }

  /** The number of labels equal to 0, 1, ..., k-1. */
  function Counts(labels: seq<int>, k: nat): (cs: seq<real>)
    ensures |cs| == k
    ensures forall c :: 0 <= c < k ==> cs[c] == Count(labels, c) as real
  {
    seq(k, c requires 0 <= c < k => Count(labels, c) as real)
  }

  /** Labels below k are counted once each. */
  lemma {:induction false} CountsTotal(labels: seq<int>, k: nat)
    requires forall i :: 0 <= i < |labels| ==> 0 <= labels[i] < k
    ensures Sum(Counts(labels, k)) == |labels| as real
    decreases |labels|
  {
    if |labels| == 0 {
      SumBounds(Counts(labels, k), 0.0, 0.0);
    } else {
      var n := |labels| - 1;
      var x := labels[n];
      CountsTotal(labels[..n], k);
      var before := Counts(labels[..n], k);
      assert Counts(labels, k) == before[x := before[x] + 1.0];
      SumUpdate(before, x, 1.0);
    }
  }

  /** The shares of the k clusters add up to exactly 100 percent. */
  lemma SharesTotal(labels: seq<int>, k: nat)
    requires |labels| > 0
    requires forall i :: 0 <= i < |labels| ==> 0 <= labels[i] < k
    ensures Sum(Shares(labels, k)) == 100.0
  {
    var counts := Counts(labels, k);
    var shares := Shares(labels, k);
    var n := |labels| as real;
    forall c | 0 <= c < k ensures shares[c] == counts[c] / n * 100.0 {
      if Count(labels, c) == 0 {
        assert counts[c] == 0.0;
      }
    }
    CountsTotal(labels, k);
    SumPercent(counts, shares, n);
    assert n / n == 1.0;
  }
}
