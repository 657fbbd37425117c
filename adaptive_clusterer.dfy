/**
 * Agglomerative clustering with an automatically chosen number of
 * clusters: Ward linkage over a distance matrix, a cut of the merge tree
 * into k clusters, the silhouette score of a labelling, and the search for
 * the k with the best score.
 *
 * A distance matrix is an n-by-n `array2<real>`.  The merge loop works on
 * a private copy of it and only ever reads and writes the cells above the
 * diagonal.
 */
module AdaptiveClustering {
  import opened Models
  import opened RealMath
  import opened SeqUtil
  import opened ClusterSpec

  /** Labels per point, the number of clusters, the silhouette score and
      the linkage when one was built. */
  datatype ClusterResult = ClusterResult(
    labels: seq<int>,
    nClusters: int,
    silhouetteScore: real,
    linkage: Option<seq<LinkageRow>>)

  /** Position of row i in the condensed (upper-triangle, row-major) form. */
  function RowStart(n: nat, i: nat): nat
    requires i <= n
  {
    if i == 0 then 0 else RowStart(n, i - 1) + (n - i)
  }

  /** Position of the distance between i and j, for i < j, in the condensed form. */
  function CondensedIndex(n: nat, i: nat, j: nat): nat
    requires i < j <= n
  {
    RowStart(n, i) + (j - i - 1)
  }

  lemma {:induction false} RowStartClosed(n: nat, i: nat)
    requires i <= n
    ensures 2 * RowStart(n, i) == i * (2 * n - i - 1)
    decreases i
  {
    if i > 0 {
      RowStartClosed(n, i - 1);
    }
  }

  /** A valid merge appended to a linkage: the retired id leaves the active
      set and the surviving id takes the combined size. */
  lemma AppendMerge(n: nat, rows: seq<LinkageRow>, row: LinkageRow)
    requires WellFormed(n, rows) && MergeOk(n, rows, row)
    ensures WellFormed(n, rows + [row])
    ensures Active(n, rows + [row]) == Active(n, rows) - {row.right}
    ensures Sizes(n, rows + [row]) == Sizes(n, rows)[row.left := row.size]
  {
    assert (rows + [row])[..|rows|] == rows;
  }

  /** Every distance between two active clusters is at least `lower`. */
  ghost predicate AtLeast(dist: array2<real>, active: set<int>, lower: real)
    reads dist
  {
    forall a, b :: a in active && b in active && a < b && 0 <= a < dist.Length0 && 0 <= b < dist.Length1 ==>
      lower <= dist[a, b]
  }

  /** The merge heights never decrease from one row to the next. */
  predicate Ascending(rows: seq<LinkageRow>)
  {
    forall t :: 0 < t < |rows| ==> rows[t - 1].distance <= rows[t].distance
  }

  /** The height of the last merge, 0 before the first. */
  function LastHeight(rows: seq<LinkageRow>): real
  {
    if |rows| == 0 then 0.0 else rows[|rows| - 1].distance
  }

  lemma AscendingAppend(rows: seq<LinkageRow>, row: LinkageRow)
    requires Ascending(rows) && (|rows| > 0 ==> rows[|rows| - 1].distance <= row.distance)
    ensures Ascending(rows + [row]) && LastHeight(rows + [row]) == row.distance
  {
  }

  /** The silhouette score of the cut into k clusters. */
  function KScore(dm: array2<real>, rows: seq<LinkageRow>, k: int): real
    requires dm.Length0 == dm.Length1
    reads dm
  {
    SilhouetteScore(dm, CutLabels(rows, k, dm.Length0))
  }

  /** A table of the silhouette scores of the cuts into lo .. hi clusters. */
  lemma ScoreTable(dm: array2<real>, rows: seq<LinkageRow>, lo: int, hi: int) returns (table: map<int, real>)
    requires dm.Length0 == dm.Length1
    ensures forall k :: lo <= k <= hi ==> k in table && table[k] == KScore(dm, rows, k)
  {
    table := map k | lo <= k <= hi :: KScore(dm, rows, k);
  }

  /** The search over k = lo .. hi - 1 of the scores in `table` so far:
      the best score starts at -1 and only a strictly higher score replaces
      it, so `best` is the first k with the highest score, or lo when no
      score beat -1. */
  predicate SearchedUpTo(table: map<int, real>, lo: int, hi: int, best: int, bestScore: real)
  {
    && (forall k :: lo <= k < hi ==> k in table)
    && bestScore >= -1.0
    && (forall k :: lo <= k < hi ==> table[k] <= bestScore)
    && (bestScore > -1.0 ==> lo <= best < hi && best in table && bestScore == table[best]
                             && forall k :: lo <= k < best ==> table[k] < bestScore)
    && (bestScore == -1.0 ==> best == lo)
  }

  /** One more k tried: it becomes the best only when it scores higher. */
  lemma SearchStep(table: map<int, real>, lo: int, k: int, best: int, bestScore: real, score: real)
    requires lo <= k && k in table && SearchedUpTo(table, lo, k, best, bestScore) && score == table[k]
    ensures score > bestScore ==> SearchedUpTo(table, lo, k + 1, k, score)
    ensures score <= bestScore ==> SearchedUpTo(table, lo, k + 1, best, bestScore)
  {
  }

  class AdaptiveClusterer {
    var minClusters: int
    var maxClusters: int
    /** The requested linkage method; only Ward's is implemented, whatever
        this says. */
    var linkage: string

    constructor (minClusters: int, maxClusters: int, linkage: string)
      ensures this.minClusters == minClusters && this.maxClusters == maxClusters && this.linkage == linkage
    {
      this.minClusters := minClusters;
      this.maxClusters := maxClusters;
      this.linkage := linkage;
    }

    /** The defaults: between 2 and 10 clusters, Ward linkage. */
    constructor Default()
      ensures minClusters == 2 && maxClusters == 10 && linkage == "ward"
    {
      minClusters := 2;
      maxClusters := 10;
      linkage := "ward";
    }

    /** The searched range of k for n points: from max(2, minClusters) to
        min(n - 1, maxClusters). */
    function MinK(): int
      reads this
    {
      if minClusters > 2 then minClusters else 2
    }

    function MaxK(n: int): int
      reads this
    {
      if n - 1 < maxClusters then n - 1 else maxClusters
    }

    /** The upper triangle of the matrix, row by row. */
    method CondensedDistance(dm: array2<real>) returns (c: seq<real>)
      requires dm.Length0 == dm.Length1
      ensures 2 * |c| == dm.Length0 * (dm.Length0 - 1)
      ensures forall i, j :: 0 <= i < j < dm.Length0 ==>
        CondensedIndex(dm.Length0, i, j) < |c| && c[CondensedIndex(dm.Length0, i, j)] == dm[i, j]
    {
      var n := dm.Length0;
      c := [];
      for i := 0 to n
        invariant |c| == RowStart(n, i)
        invariant forall p, q :: 0 <= p < i && p < q < n ==>
          CondensedIndex(n, p, q) < |c| && c[CondensedIndex(n, p, q)] == dm[p, q]
      {
        for j := i + 1 to n
          invariant |c| == RowStart(n, i) + (j - i - 1)
          invariant forall p, q :: 0 <= p < i && p < q < n ==>
            CondensedIndex(n, p, q) < |c| && c[CondensedIndex(n, p, q)] == dm[p, q]
          invariant forall q :: i < q < j ==> CondensedIndex(n, i, q) < |c| && c[CondensedIndex(n, i, q)] == dm[i, q]
        {
          c := c + [dm[i, j]];
        }
      }
      RowStartClosed(n, n);
    }

    /** The closest pair of active clusters, scanning pairs in ascending
        order and keeping the first of equally close pairs. */
    method FindClosestPair(dist: array2<real>, active: set<int>, n: nat) returns (mi: int, mj: int, d: real)
      requires dist.Length0 == n && dist.Length1 == n
      requires forall a :: a in active ==> 0 <= a < n
      requires |active| >= 2
      ensures 0 <= mi < mj < n && mi in active && mj in active && d == dist[mi, mj]
      ensures forall a, b :: a in active && b in active && a < b ==> d <= dist[a, b]
      ensures forall a, b :: a in active && b in active && a < b && ScannedBefore(a, b, mi, mj) ==> d < dist[a, b]
    {
      var found := false;
      mi, mj, d := 0, 0, 0.0;
      for i := 0 to n
        invariant found ==> 0 <= mi < mj < n && mi in active && mj in active && mi < i && d == dist[mi, mj]
        invariant found <==> exists a, b :: a in active && b in active && a < b && a < i
        invariant found ==> forall a, b :: a in active && b in active && a < b && a < i ==> d <= dist[a, b]
        invariant found ==> forall a, b :: a in active && b in active && a < b && ScannedBefore(a, b, mi, mj) ==> d < dist[a, b]
      {
        if i in active {
          for j := i + 1 to n
            invariant found ==> 0 <= mi < mj < n && mi in active && mj in active && mi <= i && d == dist[mi, mj]
            invariant found <==> (exists a, b :: a in active && b in active && a < b && a < i)
                                 || (exists b :: b in active && i < b < j)
            invariant found ==> forall a, b :: a in active && b in active && a < b && (a < i || (a == i && b < j)) ==> d <= dist[a, b]
            invariant found ==> forall a, b :: a in active && b in active && a < b && ScannedBefore(a, b, mi, mj) ==> d < dist[a, b]
          {
            if j in active && (!found || dist[i, j] < d) {
              mi, mj, d := i, j, dist[i, j];
              found := true;
            }
          }
        }
      }
      var a, b := TwoMembers(active, n);
      assert found;
    }

    /** Ward's update of the distances from the merged cluster mi to every
        other active cluster, reading and writing the upper triangle only. */
    method WardUpdate(dist: array2<real>, sizes: seq<int>, active: set<int>, mi: int, mj: int, dij: real, ops: RealOps)
      requires dist.Length0 == dist.Length1 == |sizes|
      requires 0 <= mi < |sizes| && 0 <= mj < |sizes| && mi != mj
      requires forall i :: 0 <= i < |sizes| ==> sizes[i] >= 1
      modifies dist
      ensures forall k :: 0 <= k < |sizes| && k in active && k != mi && k != mj ==>
        dist[Lo(mi, k), Hi(mi, k)] == WardDistance(ops, sizes[mi] as real, sizes[mj] as real, sizes[k] as real,
                                                   old(dist[Lo(mi, k), Hi(mi, k)]), old(dist[Lo(mj, k), Hi(mj, k)]), dij)
      ensures forall p, q :: 0 <= p < |sizes| && 0 <= q < |sizes| && !WardCell(mi, mj, active, p, q) ==>
        dist[p, q] == old(dist[p, q])
      ensures Sound(ops) && mi in active && mj in active && 0.0 <= dij && old(AtLeast(dist, active, dij)) ==>
        AtLeast(dist, active - {mj}, dij)
    {
      var n := |sizes|;
      for k := 0 to n
        invariant forall k' :: 0 <= k' < k && k' in active && k' != mi && k' != mj ==>
          dist[Lo(mi, k'), Hi(mi, k')] == WardDistance(ops, sizes[mi] as real, sizes[mj] as real, sizes[k'] as real,
                                                       old(dist[Lo(mi, k'), Hi(mi, k')]), old(dist[Lo(mj, k'), Hi(mj, k')]), dij)
        invariant forall p, q :: 0 <= p < n && 0 <= q < n && !(WardCell(mi, mj, active, p, q) && (if p == mi then q else p) < k) ==>
          dist[p, q] == old(dist[p, q])
      {
        if k in active && k != mi && k != mj {
          var ni, nj, nk := sizes[mi] as real, sizes[mj] as real, sizes[k] as real;
          var dik := if mi < k then dist[mi, k] else dist[k, mi];
          var djk := if mj < k then dist[mj, k] else dist[k, mj];
          var newDist := WardDistance(ops, ni, nj, nk, dik, djk, dij);
          if mi < k {
            dist[mi, k] := newDist;
          } else {
            dist[k, mi] := newDist;
          }
        }
      }
      if Sound(ops) && mi in active && mj in active && 0.0 <= dij && old(AtLeast(dist, active, dij)) {
        forall a, b | a in active - {mj} && b in active - {mj} && a < b && 0 <= a < n && 0 <= b < n
          ensures dij <= dist[a, b]
        {
          if WardCell(mi, mj, active, a, b) {
            var k := if a == mi then b else a;
            assert Lo(mj, k) in active && Hi(mj, k) in active && Lo(mj, k) < Hi(mj, k);
            WardAtLeastMergeDistance(ops, sizes[mi] as real, sizes[mj] as real, sizes[k] as real,
                                     old(dist[Lo(mi, k), Hi(mi, k)]), old(dist[Lo(mj, k), Hi(mj, k)]), dij);
          }
        }
      }
    }

    /** The merge loop: n - 1 merges of the closest active pair, the smaller
        id surviving with the combined size, distances updated by Ward's
        rule.  With non-negative distances the merge heights never decrease. */
    method HierarchicalLinkage(dm: array2<real>, ops: RealOps) returns (rows: seq<LinkageRow>)
      requires dm.Length0 == dm.Length1
      requires Sound(ops)
      ensures WellFormed(dm.Length0, rows)
      ensures |rows| == if dm.Length0 == 0 then 0 else dm.Length0 - 1
      ensures |rows| > 0 ==> forall a, b :: 0 <= a < b < dm.Length0 ==> rows[0].distance <= dm[a, b]
      ensures NonNegative(dm) ==> Ascending(rows)
      ensures WardLinkage(ops, dm.Length0, Matrix(dm), rows)
    {
      var n := dm.Length0;
      var dist := CopyDistances(dm);
      ghost var mats := [Matrix(dist)];
      var sizes: seq<int> := seq(n, _ => 1);
      var active := Range(n);
      rows := [];
      var steps := if n == 0 then 0 else n - 1;
      while |rows| < steps
        invariant |rows| <= steps
        invariant WellFormed(n, rows)
        invariant sizes == Sizes(n, rows) && active == Active(n, rows)
        invariant forall a :: a in active ==> 0 <= a < n
        invariant NonNegative(dm) ==> 0.0 <= LastHeight(rows) && AtLeast(dist, active, LastHeight(rows)) && Ascending(rows)
        invariant WardTrace(ops, n, mats, rows) && mats[0] == Matrix(dm) && mats[|rows|] == Matrix(dist)
        decreases steps - |rows|
      {
        rows, sizes, active, mats := TracedMerge(dm, dist, n, rows, sizes, active, ops, mats);
      }
      if |rows| > 0 {
        WardFirstMerge(ops, n, mats, rows);
      }
    }

    /** `distance_matrix.copy()`. */
    method CopyDistances(dm: array2<real>) returns (dist: array2<real>)
      ensures fresh(dist) && dist.Length0 == dm.Length0 && dist.Length1 == dm.Length1
      ensures Matrix(dist) == Matrix(dm)
    {
      dist := new real[dm.Length0, dm.Length1]((i, j) reads dm requires 0 <= i < dm.Length0 && 0 <= j < dm.Length1 => dm[i, j]);
      SameMatrix(dist, dm);
    }

    /** One pass of the merge loop: the merge appended to the linkage, the
        bookkeeping of sizes and active ids, and the trace of distance
        matrices extended by the matrix after the merge. */
    method TracedMerge(dm: array2<real>, dist: array2<real>, n: nat, rows: seq<LinkageRow>,
                       sizes: seq<int>, active: set<int>, ops: RealOps, ghost mats: seq<seq<seq<real>>>)
      returns (rows': seq<LinkageRow>, sizes': seq<int>, active': set<int>, ghost mats': seq<seq<seq<real>>>)
      requires dist.Length0 == n && dist.Length1 == n && dm.Length0 == n && dm.Length1 == n && dist != dm
      requires n >= 1 && |rows| < n - 1
      requires WellFormed(n, rows) && sizes == Sizes(n, rows) && active == Active(n, rows)
      requires forall a :: a in active ==> 0 <= a < n
      requires Sound(ops)
      requires NonNegative(dm) ==> 0.0 <= LastHeight(rows) && AtLeast(dist, active, LastHeight(rows)) && Ascending(rows)
      requires WardTrace(ops, n, mats, rows) && mats[|rows|] == Matrix(dist)
      modifies dist
      ensures |rows'| == |rows| + 1
      ensures WellFormed(n, rows') && sizes' == Sizes(n, rows') && active' == Active(n, rows')
      ensures forall a :: a in active' ==> 0 <= a < n
      ensures NonNegative(dm) ==> 0.0 <= LastHeight(rows') && AtLeast(dist, active', LastHeight(rows')) && Ascending(rows')
      ensures WardTrace(ops, n, mats', rows') && mats'[0] == mats[0] && mats'[|rows'|] == Matrix(dist)
    {
      ActiveCount(n, rows);
      SizesPositive(n, rows);
      var row := MergeClosest(dm, dist, n, rows, sizes, active, ops);
      AppendMerge(n, rows, row);
      if NonNegative(dm) {
        AscendingAppend(rows, row);
      }
      WardTraceAppend(ops, n, mats, rows, row, Matrix(dist));
      mats' := mats + [Matrix(dist)];
      rows' := rows + [row];
      sizes' := sizes[row.left := row.size];
      active' := active - {row.right};
    }

    /** One merge: the closest active pair, the row recording it, and the
        Ward update of the distances from the merged cluster.  The first
        ensures is the whole step; the others are what it gives the merge
        loop. */
    method MergeClosest(dm: array2<real>, dist: array2<real>, n: nat, rows: seq<LinkageRow>,
                        sizes: seq<int>, active: set<int>, ops: RealOps) returns (row: LinkageRow)
      requires dist.Length0 == n && dist.Length1 == n && dm.Length0 == n && dm.Length1 == n
      requires WellFormed(n, rows) && sizes == Sizes(n, rows) && active == Active(n, rows)
      requires forall a :: a in active ==> 0 <= a < n
      requires |active| >= 2 && forall i :: 0 <= i < n ==> sizes[i] >= 1
      modifies dist
      ensures WardStep(ops, n, rows, old(Matrix(dist)), row, Matrix(dist))
      ensures MergeOk(n, rows, row)
      ensures Sound(ops) && 0.0 <= LastHeight(rows) && old(AtLeast(dist, active, LastHeight(rows))) ==>
        LastHeight(rows) <= row.distance && AtLeast(dist, active - {row.right}, row.distance)
    {
      ghost var m := Matrix(dist);
      var mi, mj, d := FindClosestPair(dist, active, n);
      row := LinkageRow(mi, mj, d, sizes[mi] + sizes[mj]);
      assert ClosestPair(m, n, active, mi, mj);
      WardUpdate(dist, sizes, active, mi, mj, d, ops);
      assert WardUpdated(ops, m, Matrix(dist), n, sizes, active, mi, mj);
    }

    /** Cuts the merge tree after the first n - k merges (fewer when the
        tree has fewer rows) and renumbers the labels onto 0, 1, ... in
        increasing order of the surviving cluster ids. */
    method CutTree(rows: seq<LinkageRow>, k: int, n: nat) returns (labels: seq<int>)
      ensures labels == CutLabels(rows, k, n)
    {
      var a := new int[n](i => i);
      var nMerges := n - k;
      var limit := if nMerges < |rows| then nMerges else |rows|;
      var steps := CutSteps(n, k, |rows|);
      assert limit <= 0 ==> steps == 0;
      assert limit > 0 ==> steps == limit;
      var t := 0;
      while t < limit
        invariant 0 <= t <= steps
        invariant a[..] == ApplyMerges(Identity(n), rows[..t])
      {
        var c1, c2 := rows[t].left, rows[t].right;
        MaskAssign(a, c1, c2, if c1 <= c2 then c1 else c2);
        assert rows[..t + 1][..t] == rows[..t];
        t := t + 1;
      }
      assert t == steps;
      labels := Relabel(a[..]);
    }

    /** `labels[(labels == c2) | (labels == c1)] = newLabel`. */
    method MaskAssign(a: array<int>, c1: int, c2: int, newLabel: int)
      modifies a
      ensures forall j :: 0 <= j < a.Length ==>
        a[j] == if old(a[j]) == c1 || old(a[j]) == c2 then newLabel else old(a[j])
      ensures newLabel == (if c1 <= c2 then c1 else c2) ==> a[..] == MergeLabels(old(a[..]), c1, c2)
    {
      for i := 0 to a.Length
        invariant forall j :: 0 <= j < i ==>
          a[j] == if old(a[j]) == c1 || old(a[j]) == c2 then newLabel else old(a[j])
        invariant forall j :: i <= j < a.Length ==> a[j] == old(a[j])
      {
        if a[i] == c2 || a[i] == c1 {
          a[i] := newLabel;
        }
      }
    }

    /** Maps every label to its position among the sorted distinct labels. */
    method Relabel(merged: seq<int>) returns (labels: seq<int>)
      ensures labels == Renumber(merged)
    {
      var uniqueLabels := Unique(merged);
      var labelMap := map x | x in uniqueLabels :: IndexOf(uniqueLabels, x);
      ghost var r := Renumber(merged);
      labels := [];
      for i := 0 to |merged|
        invariant labels == r[..i]
      {
        assert merged[i] in uniqueLabels;
        assert labelMap[merged[i]] == r[i];
        assert r[..i + 1] == r[..i] + [r[i]];
        labels := labels + [labelMap[merged[i]]];
      }
      assert r[..|merged|] == r;
    }

    /** The mean silhouette value of a labelling; see SilhouetteScore. */
    method Silhouette(dm: array2<real>, labels: seq<int>) returns (score: real)
      requires dm.Length0 == dm.Length1 == |labels|
      ensures score == SilhouetteScore(dm, labels)
      ensures NonNegative(dm) ==> -1.0 <= score <= 1.0
    {
      var n := |labels|;
      var uniqueLabels := Unique(labels);
      var nClusters := |uniqueLabels|;
      if nClusters <= 1 || nClusters >= n {
        return 0.0;
      }
      var values: seq<real> := [];
      for i := 0 to n
        invariant |values| == i
        invariant forall j :: 0 <= j < i ==> values[j] == SValue(dm, labels, j)
      {
        var labelI := labels[i];
        var sameSum, sameCount := 0.0, 0;
        for j := 0 to n
          invariant sameSum == SameSum(dm, labels, i, j) && sameCount == SameCount(labels, i, j)
        {
          if labels[j] == labelI && j != i {
            sameSum, sameCount := sameSum + dm[i, j], sameCount + 1;
          }
        }
        var ai := if sameCount == 0 then 0.0 else sameSum / sameCount as real;
        var bi: Bound := Infinite;
        for m := 0 to nClusters
          invariant bi == BMin(dm, labels, i, uniqueLabels, m)
        {
          var other := uniqueLabels[m];
          if other != labelI {
            var otherSum, otherCount := 0.0, 0;
            for j := 0 to n
              invariant otherSum == ClusterSum(dm, labels, i, other, j) && otherCount == ClusterCount(labels, other, j)
            {
              if labels[j] == other {
                otherSum, otherCount := otherSum + dm[i, j], otherCount + 1;
              }
            }
            if otherCount > 0 {
              bi := MinBound(bi, otherSum / otherCount as real);
            }
          }
        }
        var b := if bi.Infinite? then 0.0 else bi.v;
        var maxAB := Max(ai, b);
        var si := if maxAB > 0.0 then (b - ai) / maxAB else 0.0;
        values := values + [si];
      }
      assert values == SValues(dm, labels);
      score := Mean(values);
      if NonNegative(dm) {
        SilhouetteInRange(dm, labels);
      }
    }

    /** Tries every k of the searched range and keeps the first one with the
        highest silhouette score, starting from a score of -1; an empty range
        gives its lower end with score 0. */
    method FindOptimalK(dm: array2<real>, rows: seq<LinkageRow>) returns (bestK: int, bestScore: real)
      requires dm.Length0 == dm.Length1
      ensures MinK() > MaxK(dm.Length0) ==> bestK == MinK() && bestScore == 0.0
      ensures MinK() <= MaxK(dm.Length0) ==>
        MinK() <= bestK <= MaxK(dm.Length0) && bestScore >= -1.0
        && (forall k :: MinK() <= k <= MaxK(dm.Length0) ==> KScore(dm, rows, k) <= bestScore)
        && (bestScore > -1.0 ==> bestScore == KScore(dm, rows, bestK)
                                 && forall k :: MinK() <= k < bestK ==> KScore(dm, rows, k) < bestScore)
        && (bestScore == -1.0 ==> bestK == MinK())
    {
      var n := dm.Length0;
      var minK, maxK := MinK(), MaxK(n);
      if minK > maxK {
        return minK, 0.0;
      }
      bestK, bestScore := minK, -1.0;
      ghost var table := ScoreTable(dm, rows, minK, maxK);
      for k := minK to maxK + 1
        invariant minK <= bestK <= maxK
        invariant SearchedUpTo(table, minK, k, bestK, bestScore)
      {
        var score := ScoreCut(dm, rows, k);
        assert score == table[k];
        SearchStep(table, minK, k, bestK, bestScore, score);
        if score > bestScore {
          bestScore, bestK := score, k;
        }
      }
    }

    /** The silhouette score of the tree cut into k clusters. */
    method ScoreCut(dm: array2<real>, rows: seq<LinkageRow>, k: int) returns (score: real)
      requires dm.Length0 == dm.Length1
      ensures score == KScore(dm, rows, k)
    {
      var labels := CutTree(rows, k, dm.Length0);
      score := Silhouette(dm, labels);
    }

    /** A result made by cutting the Ward linkage of the n-by-n distances m
        into `nClusters` clusters: the labels are the cut's, and there are
        min(nClusters, n) of them, numbered from 0. */
    ghost predicate TreeCut(ops: RealOps, m: seq<seq<real>>, n: nat, res: ClusterResult)
    {
      && res.linkage.Some? && WardLinkage(ops, n, m, res.linkage.value)
      && WellFormed(n, res.linkage.value) && |res.linkage.value| == n - 1
      && res.labels == CutLabels(res.linkage.value, res.nClusters, n)
      && res.nClusters >= 1
      && |Unique(res.labels)| == (if res.nClusters < n then res.nClusters else n)
      && Elems(res.labels) == Range(|Unique(res.labels)|)
    }

    /** k is in the searched range, no k there scores higher and every
        smaller k scores strictly less, so ties go to the smallest k; with
        non-negative distances `score` is the score of the cut at k. */
    ghost predicate BestOfSearch(dm: array2<real>, rows: seq<LinkageRow>, k: int, score: real)
      requires dm.Length0 == dm.Length1
      reads this, dm
    {
      && MinK() <= k <= MaxK(dm.Length0)
      && (forall k' :: MinK() <= k' <= MaxK(dm.Length0) ==> KScore(dm, rows, k') <= score)
      && (forall k' :: MinK() <= k' < k ==> KScore(dm, rows, k') < score)
      && (NonNegative(dm) ==> score == KScore(dm, rows, k))
    }

    /** Clusters the points of a distance matrix: fewer than two points form
        one cluster; otherwise the merge tree is cut into the requested
        number of clusters, clamped to 1..n, or into the number the
        silhouette search picks. */
    method Cluster(dm: array2<real>, nClusters: Option<int>, ops: RealOps) returns (res: ClusterResult)
      requires dm.Length0 == dm.Length1
      requires Sound(ops)
      ensures dm.Length0 < 2 ==> res == ClusterResult(seq(dm.Length0, _ => 0), 1, 0.0, None)
      ensures dm.Length0 >= 2 ==> TreeCut(ops, Matrix(dm), dm.Length0, res)
      ensures dm.Length0 >= 2 && nClusters.Some? ==>
        res.nClusters == (if nClusters.value < 1 then 1 else if nClusters.value < dm.Length0 then nClusters.value else dm.Length0)
        && res.silhouetteScore == SilhouetteScore(dm, res.labels)
      ensures dm.Length0 >= 2 && nClusters.None? && MinK() > MaxK(dm.Length0) ==>
        res.nClusters == MinK() && res.silhouetteScore == 0.0
      ensures dm.Length0 >= 2 && nClusters.None? && MinK() <= MaxK(dm.Length0) ==>
        res.linkage.Some? && BestOfSearch(dm, res.linkage.value, res.nClusters, res.silhouetteScore)
    {
      var n := dm.Length0;
      if n < 2 {
        return ClusterResult(seq(n, _ => 0), 1, 0.0, None);
      }
      var rows := HierarchicalLinkage(dm, ops);
      var k: int;
      var silhouette: real;
      var labels: seq<int>;
      match nClusters {
        case None =>
          k, silhouette, labels := CutAtBestK(dm, rows);
        case Some(requested) =>
          k := if requested < n then requested else n;
          k := if k > 1 then k else 1;
          labels := CutTree(rows, k, n);
          silhouette := Silhouette(dm, labels);
      }
      CutClusterCount(rows, k, n);
      res := ClusterResult(labels, k, silhouette, Some(rows));
    }

    /** The search branch of Cluster: the k the silhouette search picks and
        the cut of the tree at it; with non-negative distances the score
        kept is the score of that cut. */
    method CutAtBestK(dm: array2<real>, rows: seq<LinkageRow>) returns (k: int, silhouette: real, labels: seq<int>)
      requires dm.Length0 == dm.Length1
      ensures labels == CutLabels(rows, k, dm.Length0)
      ensures MinK() > MaxK(dm.Length0) ==> k == MinK() && silhouette == 0.0
      ensures MinK() <= MaxK(dm.Length0) ==> BestOfSearch(dm, rows, k, silhouette)
    {
      var n := dm.Length0;
      k, silhouette := FindOptimalK(dm, rows);
      labels := CutTree(rows, k, n);
      if NonNegative(dm) && MinK() <= MaxK(n) {
        SilhouetteInRange(dm, CutLabels(rows, MinK(), n));
        assert KScore(dm, rows, MinK()) >= -1.0;
        assert silhouette == KScore(dm, rows, k);
      }
    }
  }
}
