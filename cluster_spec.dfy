/**
 * Specification of the agglomerative clustering: what a linkage (the list
 * of merges) is, how the tree cut relabels the points, and how the
 * silhouette score is defined.  The imperative code that computes these
 * lives in AdaptiveClustering.
 */
module ClusterSpec {
  import opened RealMath
  import opened SeqUtil

  /** One merge: the surviving cluster id, the retired id, the distance
      at which they merged and the size of the merged cluster. */
  datatype LinkageRow = LinkageRow(left: int, right: int, distance: real, size: int)

  // ---------------------------------------------------------------------
  // Linkage bookkeeping

  /** The cluster ids still active after the given merges: every merge
      retires its right-hand id. */
  function Active(n: nat, rows: seq<LinkageRow>): set<int>
    decreases |rows|
  {
    if |rows| == 0 then Range(n)
    else Active(n, rows[..|rows| - 1]) - {rows[|rows| - 1].right}
  }

  /** The cluster sizes after the given merges, indexed by cluster id:
      every merge stores the combined size under its left-hand id. */
  function Sizes(n: nat, rows: seq<LinkageRow>): (s: seq<int>)
    ensures |s| == n
    decreases |rows|
  {
    if |rows| == 0 then seq(n, _ => 1)
    else
      var s := Sizes(n, rows[..|rows| - 1]);
      var r := rows[|rows| - 1];
      if 0 <= r.left < n then s[r.left := r.size] else s
  }

  /** A merge of two distinct active clusters, the smaller id surviving,
      recording the sum of their sizes. */
  predicate MergeOk(n: nat, prev: seq<LinkageRow>, r: LinkageRow)
  {
    && 0 <= r.left < r.right < n
    && r.left in Active(n, prev)
    && r.right in Active(n, prev)
    && r.size == Sizes(n, prev)[r.left] + Sizes(n, prev)[r.right]
  }

  predicate WellFormed(n: nat, rows: seq<LinkageRow>)
    decreases |rows|
  {
    |rows| == 0 || (WellFormed(n, rows[..|rows| - 1]) && MergeOk(n, rows[..|rows| - 1], rows[|rows| - 1]))
  }

  /** Sum of the sizes of the active clusters among ids 0..m-1. */
  function ActiveSum(s: seq<int>, a: set<int>, m: nat): int
    requires m <= |s|
    decreases m
  {
    if m == 0 then 0
    else ActiveSum(s, a, m - 1) + (if m - 1 in a then s[m - 1] else 0)
  }

  lemma {:induction false} WellFormedPrefix(n: nat, rows: seq<LinkageRow>, m: nat)
    requires WellFormed(n, rows) && m <= |rows|
    ensures WellFormed(n, rows[..m])
    decreases |rows|
  {
    if m < |rows| {
      assert rows[..|rows| - 1][..m] == rows[..m];
      WellFormedPrefix(n, rows[..|rows| - 1], m);
    } else {
      assert rows[..m] == rows;
    }
  }

  /** Every merge retires one id, so after t merges n - t ids are active,
      all of them in 0..n-1; and a merge needs two active ids, so there are
      at most n - 1 merges. */
  lemma {:induction false} ActiveCount(n: nat, rows: seq<LinkageRow>)
    requires WellFormed(n, rows)
    ensures forall a :: a in Active(n, rows) ==> 0 <= a < n
    ensures |Active(n, rows)| == n - |rows|
    ensures n >= 1 ==> |rows| <= n - 1
    ensures n == 0 ==> |rows| == 0
    decreases |rows|
  {
    if |rows| > 0 {
      var prev, r := rows[..|rows| - 1], rows[|rows| - 1];
      ActiveCount(n, prev);
      var a := Active(n, prev);
      assert {r.left, r.right} <= a;
      assert |{r.left, r.right}| == 2;
      SubsetCard({r.left, r.right}, a);
    }
  }

  /** Cluster sizes are positive. */
  lemma {:induction false} SizesPositive(n: nat, rows: seq<LinkageRow>)
    requires WellFormed(n, rows)
    ensures forall i :: 0 <= i < n ==> Sizes(n, rows)[i] >= 1
    decreases |rows|
  {
    if |rows| > 0 {
      SizesPositive(n, rows[..|rows| - 1]);
    }
  }

  /** Moving the size of r onto l and retiring r keeps the total. */
  lemma {:induction false} ActiveSumMerge(s: seq<int>, a: set<int>, l: int, r: int, m: nat)
    requires 0 <= l < |s| && 0 <= r < |s| && l != r && l in a && r in a && m <= |s|
    ensures ActiveSum(s[l := s[l] + s[r]], a - {r}, m)
         == ActiveSum(s, a, m) + (if l < m then s[r] else 0) - (if r < m then s[r] else 0)
    decreases m
  {
    if m > 0 {
      ActiveSumMerge(s, a, l, r, m - 1);
    }
  }

  /** The sizes of the active clusters always add up to n. */
  lemma {:induction false} ActiveTotal(n: nat, rows: seq<LinkageRow>)
    requires WellFormed(n, rows)
    ensures ActiveSum(Sizes(n, rows), Active(n, rows), n) == n
    decreases |rows|
  {
    if |rows| == 0 {
      AllOnesSum(n, n);
    } else {
      var prev, r := rows[..|rows| - 1], rows[|rows| - 1];
      ActiveTotal(n, prev);
      var s := Sizes(n, prev);
      assert Sizes(n, rows) == s[r.left := s[r.left] + s[r.right]];
      ActiveSumMerge(s, Active(n, prev), r.left, r.right, n);
    }
  }

  lemma {:induction false} AllOnesSum(n: nat, m: nat)
    requires m <= n
    ensures ActiveSum(seq(n, _ => 1), Range(n), m) == m
    decreases m
  {
    if m > 0 {
      AllOnesSum(n, m - 1);
    }
  }

  lemma {:induction false} ActiveSumPair(s: seq<int>, l: int, r: int, m: nat)
    requires 0 <= l < |s| && 0 <= r < |s| && l != r && m <= |s|
    ensures ActiveSum(s, {l, r}, m) == (if l < m then s[l] else 0) + (if r < m then s[r] else 0)
    decreases m
  {
    if m > 0 {
      ActiveSumPair(s, l, r, m - 1);
    }
  }

  /** The last of n - 1 merges joins everything: its size is n. */
  lemma LastMergeSize(n: nat, rows: seq<LinkageRow>)
    requires WellFormed(n, rows) && n >= 2 && |rows| == n - 1
    ensures rows[|rows| - 1].size == n
  {
    var prev, r := rows[..|rows| - 1], rows[|rows| - 1];
    ActiveCount(n, prev);
    ActiveTotal(n, prev);
    var a := Active(n, prev);
    assert |a| == 2;
    assert a == {r.left, r.right} by {
      assert {r.left, r.right} <= a;
      assert |a - {r.left, r.right}| == 0;
    }
    ActiveSumPair(Sizes(n, prev), r.left, r.right, n);
  }

  // ---------------------------------------------------------------------
  // Ward's update

  /** The square of Ward's distance between the merged cluster (sizes ni
      and nj) and a third cluster of size nk, in Lance-Williams form. */
  function WardSquare(ni: real, nj: real, nk: real, dik: real, djk: real, dij: real): real
    requires ni + nj + nk != 0.0
  {
    ((ni + nk) * (dik * dik) + (nj + nk) * (djk * djk) - nk * (dij * dij)) / (ni + nj + nk)
  }

  function WardDistance(ops: RealOps, ni: real, nj: real, nk: real, dik: real, djk: real, dij: real): real
    requires ni + nj + nk != 0.0
  {
    ops.sqrt(WardSquare(ni, nj, nk, dik, djk, dij))
  }

  lemma WardSquareBound(ni: real, nj: real, nk: real, dik: real, djk: real, dij: real)
    requires ni > 0.0 && nj > 0.0 && nk > 0.0
    requires 0.0 <= dij <= dik && dij <= djk
    ensures WardSquare(ni, nj, nk, dik, djk, dij) >= dij * dij
  {
    SquareMonotone(dij, dik);
    SquareMonotone(dij, djk);
    ScaleLe(ni + nk, dik * dik, dij * dij);
    ScaleLe(nj + nk, djk * djk, dij * dij);
    var num := (ni + nk) * (dik * dik) + (nj + nk) * (djk * djk) - nk * (dij * dij);
    var den := ni + nj + nk;
    assert num - den * (dij * dij) >= 0.0;
    assert num / den - dij * dij == (num - den * (dij * dij)) / den;
  }

  /** When the merged pair was the closest one, the updated distance is
      never below the merge distance: merge heights never decrease. */
  lemma WardAtLeastMergeDistance(ops: RealOps, ni: real, nj: real, nk: real, dik: real, djk: real, dij: real)
    requires Sound(ops)
    requires ni > 0.0 && nj > 0.0 && nk > 0.0
    requires 0.0 <= dij <= dik && dij <= djk
    ensures WardDistance(ops, ni, nj, nk, dik, djk, dij) >= dij
  {
    WardSquareBound(ni, nj, nk, dik, djk, dij);
    SqrtMonotone(ops, dij * dij, WardSquare(ni, nj, nk, dik, djk, dij));
    SqrtOfSquare(ops, dij);
  }

  // ---------------------------------------------------------------------
  // The Ward linkage of a distance matrix

  /** The cell of the upper triangle that holds the distance between a and b. */
  function Lo(a: int, b: int): int { if a < b then a else b }
  function Hi(a: int, b: int): int { if a < b then b else a }

  /** `(a, b)` comes before `(c, d)` in the ascending scan of pairs. */
  predicate ScannedBefore(a: int, b: int, c: int, d: int)
  {
    a < c || (a == c && b < d)
  }

  /** The cells the Ward update rewrites: those between mi and another
      active cluster other than mj. */
  predicate WardCell(mi: int, mj: int, active: set<int>, p: int, q: int)
  {
    (p == mi && mi < q && q in active && q != mj) || (q == mi && p < mi && p in active && p != mj)
  }

  /** m is an n-by-n matrix. */
  ghost predicate IsMatrix(m: seq<seq<real>>, n: nat)
  {
    |m| == n && forall i :: 0 <= i < n ==> |m[i]| == n
  }

  /** The contents of a distance array, row by row. */
  ghost function Matrix(a: array2<real>): (m: seq<seq<real>>)
    reads a
    ensures |m| == a.Length0
    ensures forall i :: 0 <= i < a.Length0 ==> |m[i]| == a.Length1
    ensures forall i, j :: 0 <= i < a.Length0 && 0 <= j < a.Length1 ==> m[i][j] == a[i, j]
  {
    seq(a.Length0, i requires 0 <= i < a.Length0 reads a =>
      seq(a.Length1, j requires 0 <= j < a.Length1 reads a => a[i, j]))
  }

  /** Two arrays with the same cells have the same contents. */
  lemma SameMatrix(a: array2<real>, b: array2<real>)
    requires a.Length0 == b.Length0 && a.Length1 == b.Length1
    requires forall i, j :: 0 <= i < a.Length0 && 0 <= j < a.Length1 ==> a[i, j] == b[i, j]
    ensures Matrix(a) == Matrix(b)
  {
    assert forall i | 0 <= i < a.Length0 :: Matrix(a)[i] == Matrix(b)[i];
  }

  /** (mi, mj) is the pair the scan of the active clusters picks in m:
      both active with mi < mj, no active pair closer, and every active
      pair scanned before it strictly farther (only a strictly smaller
      distance replaces the pair found so far). */
  ghost predicate ClosestPair(m: seq<seq<real>>, n: nat, active: set<int>, mi: int, mj: int)
    requires IsMatrix(m, n)
  {
    && 0 <= mi < mj < n && mi in active && mj in active
    && (forall a, b :: a in active && b in active && 0 <= a < b < n ==> m[mi][mj] <= m[a][b])
    && (forall a, b :: a in active && b in active && 0 <= a < b < n && ScannedBefore(a, b, mi, mj) ==>
          m[mi][mj] < m[a][b])
  }

  /** m2 is m after Ward's update for the merge of mi and mj: the cell
      between mi and every other active cluster k holds Ward's distance
      from the merged cluster to k, and every other cell is unchanged. */
  ghost predicate WardUpdated(ops: RealOps, m: seq<seq<real>>, m2: seq<seq<real>>, n: nat,
                              sizes: seq<int>, active: set<int>, mi: int, mj: int)
    requires IsMatrix(m, n) && IsMatrix(m2, n) && |sizes| == n && 0 <= mi < n && 0 <= mj < n
  {
    && (forall k :: 0 <= k < n && k in active && k != mi && k != mj ==>
          sizes[mi] + sizes[mj] + sizes[k] != 0
          && m2[Lo(mi, k)][Hi(mi, k)]
             == WardDistance(ops, sizes[mi] as real, sizes[mj] as real, sizes[k] as real,
                             m[Lo(mi, k)][Hi(mi, k)], m[Lo(mj, k)][Hi(mj, k)], m[mi][mj]))
    && (forall p, q :: 0 <= p < n && 0 <= q < n && !WardCell(mi, mj, active, p, q) ==> m2[p][q] == m[p][q])
  }

  /** One merge of the Ward linkage: after the merges `prev`, with distances
      m, the row joins the closest active pair at its distance, with the
      combined size, and m2 is the matrix after Ward's update. */
  ghost predicate WardStep(ops: RealOps, n: nat, prev: seq<LinkageRow>, m: seq<seq<real>>,
                           row: LinkageRow, m2: seq<seq<real>>)
  {
    && IsMatrix(m, n) && IsMatrix(m2, n)
    && MergeOk(n, prev, row)
    && ClosestPair(m, n, Active(n, prev), row.left, row.right)
    && row.distance == m[row.left][row.right]
    && WardUpdated(ops, m, m2, n, Sizes(n, prev), Active(n, prev), row.left, row.right)
  }

  /** Row t is the Ward step from matrix t to matrix t + 1. */
  ghost predicate StepAt(ops: RealOps, n: nat, mats: seq<seq<seq<real>>>, rows: seq<LinkageRow>, t: int)
    requires |mats| == |rows| + 1
  {
    0 <= t < |rows| && WardStep(ops, n, rows[..t], mats[t], rows[t], mats[t + 1])
  }

  /** mats[t] is the distance matrix before merge t, and every row is the
      Ward step from it. */
  ghost predicate WardTrace(ops: RealOps, n: nat, mats: seq<seq<seq<real>>>, rows: seq<LinkageRow>)
  {
    && |mats| == |rows| + 1
    && forall t :: 0 <= t < |rows| ==> StepAt(ops, n, mats, rows, t)
  }

  /** rows is the Ward linkage of the n-by-n distance matrix m: the n - 1
      merges of the closest active pair, with distances updated by Ward's
      rule after each. */
  ghost predicate WardLinkage(ops: RealOps, n: nat, m: seq<seq<real>>, rows: seq<LinkageRow>)
  {
    && |rows| == (if n == 0 then 0 else n - 1)
    && exists mats :: WardTrace(ops, n, mats, rows) && mats[0] == m
  }

  /** The first merge is at the smallest distance of the matrix. */
  lemma WardFirstMerge(ops: RealOps, n: nat, mats: seq<seq<seq<real>>>, rows: seq<LinkageRow>)
    requires WardTrace(ops, n, mats, rows) && |rows| > 0
    ensures IsMatrix(mats[0], n)
    ensures forall a, b :: 0 <= a < b < n ==> rows[0].distance <= mats[0][a][b]
  {
    assert StepAt(ops, n, mats, rows, 0);
    var m, active := mats[0], Active(n, rows[..0]);
    assert rows[..0] == [];
    assert ClosestPair(m, n, active, rows[0].left, rows[0].right);
    forall a, b | 0 <= a < b < n
      ensures rows[0].distance <= m[a][b]
    {
      assert a in active && b in active;
    }
  }

  /** A Ward step appended to a trace extends it. */
  lemma WardTraceAppend(ops: RealOps, n: nat, mats: seq<seq<seq<real>>>, rows: seq<LinkageRow>,
                        row: LinkageRow, m2: seq<seq<real>>)
    requires WardTrace(ops, n, mats, rows)
    requires WardStep(ops, n, rows, mats[|rows|], row, m2)
    ensures WardTrace(ops, n, mats + [m2], rows + [row])
  {
    var rows', mats' := rows + [row], mats + [m2];
    forall t | 0 <= t < |rows'|
      ensures StepAt(ops, n, mats', rows', t)
    {
      if t < |rows| {
        assert StepAt(ops, n, mats, rows, t);
        assert rows'[..t] == rows[..t];
      } else {
        assert rows'[..t] == rows;
      }
    }
  }

  /** The scan picks one pair only. */
  lemma ClosestPairUnique(m: seq<seq<real>>, n: nat, active: set<int>, a: int, b: int, c: int, d: int)
    requires IsMatrix(m, n) && ClosestPair(m, n, active, a, b) && ClosestPair(m, n, active, c, d)
    ensures a == c && b == d
  {
    var ab, cd := m[a][b], m[c][d];
    assert ScannedBefore(a, b, c, d) ==> cd < ab;
    assert ScannedBefore(c, d, a, b) ==> ab < cd;
  }

  /** Ward's update yields one matrix only. */
  lemma WardUpdatedUnique(ops: RealOps, m: seq<seq<real>>, m2: seq<seq<real>>, m3: seq<seq<real>>, n: nat,
                          sizes: seq<int>, active: set<int>, mi: int, mj: int)
    requires IsMatrix(m, n) && IsMatrix(m2, n) && IsMatrix(m3, n) && |sizes| == n && 0 <= mi < n && 0 <= mj < n
    requires WardUpdated(ops, m, m2, n, sizes, active, mi, mj)
    requires WardUpdated(ops, m, m3, n, sizes, active, mi, mj)
    ensures m2 == m3
  {
    forall p | 0 <= p < n
      ensures m2[p] == m3[p]
    {
      forall q | 0 <= q < n
        ensures m2[p][q] == m3[p][q]
      {
        if WardCell(mi, mj, active, p, q) {
          var k := if p == mi then q else p;
          assert Lo(mi, k) == p && Hi(mi, k) == q;
        }
      }
    }
  }

  /** Two traces from the same matrix agree merge by merge. */
  lemma {:induction false} WardTraceUnique(ops: RealOps, n: nat, mats1: seq<seq<seq<real>>>, rows1: seq<LinkageRow>,
                                           mats2: seq<seq<seq<real>>>, rows2: seq<LinkageRow>, t: nat)
    requires WardTrace(ops, n, mats1, rows1) && WardTrace(ops, n, mats2, rows2) && mats1[0] == mats2[0]
    requires t <= |rows1| && t <= |rows2|
    ensures rows1[..t] == rows2[..t] && mats1[t] == mats2[t]
    decreases t
  {
    if t > 0 {
      var s := t - 1;
      WardTraceUnique(ops, n, mats1, rows1, mats2, rows2, s);
      var prev, m := rows1[..s], mats1[s];
      var r1, r2 := rows1[s], rows2[s];
      assert StepAt(ops, n, mats1, rows1, s) && StepAt(ops, n, mats2, rows2, s);
      ClosestPairUnique(m, n, Active(n, prev), r1.left, r1.right, r2.left, r2.right);
      assert r1 == r2;
      WardUpdatedUnique(ops, m, mats1[t], mats2[t], n, Sizes(n, prev), Active(n, prev), r1.left, r1.right);
      assert rows1[..t] == rows1[..s] + [r1];
      assert rows2[..t] == rows2[..s] + [r2];
    }
  }

  /** The Ward linkage of a matrix is unique: every merge and its height
      are determined by the distances. */
  lemma WardLinkageUnique(ops: RealOps, n: nat, m: seq<seq<real>>, rows1: seq<LinkageRow>, rows2: seq<LinkageRow>)
    requires WardLinkage(ops, n, m, rows1) && WardLinkage(ops, n, m, rows2)
    ensures rows1 == rows2
  {
    var mats1 :| WardTrace(ops, n, mats1, rows1) && mats1[0] == m;
    var mats2 :| WardTrace(ops, n, mats2, rows2) && mats2[0] == m;
    WardTraceUnique(ops, n, mats1, rows1, mats2, rows2, |rows1|);
    assert rows1[..|rows1|] == rows1 && rows2[..|rows2|] == rows2;
  }

  /** A Ward linkage is a well-formed linkage. */
  lemma {:induction false} WardTraceWellFormed(ops: RealOps, n: nat, mats: seq<seq<seq<real>>>, rows: seq<LinkageRow>)
    requires WardTrace(ops, n, mats, rows)
    ensures WellFormed(n, rows)
    decreases |rows|
  {
    if |rows| > 0 {
      var s := |rows| - 1;
      assert StepAt(ops, n, mats, rows, s);
      WardTracePrefix(ops, n, mats, rows, s);
      WardTraceWellFormed(ops, n, mats[..s + 1], rows[..s]);
    }
  }

  lemma WardTracePrefix(ops: RealOps, n: nat, mats: seq<seq<seq<real>>>, rows: seq<LinkageRow>, s: nat)
    requires WardTrace(ops, n, mats, rows) && s <= |rows|
    ensures WardTrace(ops, n, mats[..s + 1], rows[..s])
  {
    var mats', rows' := mats[..s + 1], rows[..s];
    forall t | 0 <= t < s
      ensures StepAt(ops, n, mats', rows', t)
    {
      assert StepAt(ops, n, mats, rows, t);
      assert rows[..s][..t] == rows[..t];
    }
  }

  // ---------------------------------------------------------------------
  // Tree cut

  function Identity(n: nat): (ids: seq<int>)
    ensures |ids| == n && forall i :: 0 <= i < n ==> ids[i] == i
  {
    seq(n, i => i)
  }

  /** One vectorised cut step: every label equal to c1 or c2 becomes the
      smaller of the two. */
  function MergeLabels(labels: seq<int>, c1: int, c2: int): (r: seq<int>)
    ensures |r| == |labels|
  {
    seq(|labels|, i requires 0 <= i < |labels| =>
      if labels[i] == c1 || labels[i] == c2 then (if c1 <= c2 then c1 else c2) else labels[i])
  }

  /** The labels after replaying the given merges. */
  function ApplyMerges(labels: seq<int>, rows: seq<LinkageRow>): (r: seq<int>)
    ensures |r| == |labels|
    decreases |rows|
  {
    if |rows| == 0 then labels
    else
      var last := rows[|rows| - 1];
      MergeLabels(ApplyMerges(labels, rows[..|rows| - 1]), last.left, last.right)
  }

  /** Relabelling onto 0..d-1 through the sorted distinct labels. */
  function Renumber(labels: seq<int>): (r: seq<int>)
    ensures |r| == |labels|
  {
    var u := Unique(labels);
    seq(|labels|, i requires 0 <= i < |labels| => IndexOf(u, labels[i]))
  }

  /** How many merges a cut into k clusters replays. */
  function CutSteps(n: nat, k: int, available: nat): nat
  {
    if n - k <= 0 then 0 else if n - k < available then n - k else available
  }

  /** The labels of a cut into k clusters. */
  function CutLabels(rows: seq<LinkageRow>, k: int, n: nat): (r: seq<int>)
    ensures |r| == n
  {
    Renumber(ApplyMerges(Identity(n), rows[..CutSteps(n, k, |rows|)]))
  }

  /** Renumbering keeps the order and the equalities between labels. */
  lemma RenumberMonotone(labels: seq<int>, i: nat, j: nat)
    requires i < |labels| && j < |labels|
    ensures labels[i] < labels[j] <==> Renumber(labels)[i] < Renumber(labels)[j]
    ensures labels[i] == labels[j] <==> Renumber(labels)[i] == Renumber(labels)[j]
  {
    var u, r := Unique(labels), Renumber(labels);
    assert u[r[i]] == labels[i] && u[r[j]] == labels[j];
  }

  /** Renumbering uses exactly the labels 0..d-1, d being the number of
      distinct input labels. */
  lemma RenumberOnto(labels: seq<int>)
    ensures Elems(Renumber(labels)) == Range(|Unique(labels)|)
    ensures |Unique(Renumber(labels))| == |Unique(labels)|
  {
    var u, r := Unique(labels), Renumber(labels);
    forall x | x in Range(|u|) ensures x in Elems(r) {
      assert u[x] in labels;
      var i :| 0 <= i < |labels| && labels[i] == u[x];
      assert r[i] == x;
    }
    forall x | x in Elems(r) ensures x in Range(|u|) {
      var i :| 0 <= i < |r| && r[i] == x;
    }
    UniqueCard(r);
  }

  /** While merges are replayed, the labels in use are exactly the active
      ids, and every active id still labels itself. */
  lemma {:induction false} ApplyMergesTracksActive(n: nat, rows: seq<LinkageRow>)
    requires WellFormed(n, rows)
    ensures Elems(ApplyMerges(Identity(n), rows)) == Active(n, rows)
    ensures forall a :: a in Active(n, rows) ==> 0 <= a < n && ApplyMerges(Identity(n), rows)[a] == a
    decreases |rows|
  {
    ActiveCount(n, rows);
    if |rows| == 0 {
      forall x | x in Range(n) ensures x in Elems(Identity(n)) {
        assert Identity(n)[x] == x;
      }
    } else {
      var prev, r := rows[..|rows| - 1], rows[|rows| - 1];
      ApplyMergesTracksActive(n, prev);
      var before := ApplyMerges(Identity(n), prev);
      assert ApplyMerges(Identity(n), rows) == MergeLabels(before, r.left, r.right);
      MergeLabelsActive(before, Active(n, prev), r.left, r.right);
    }
  }

  /** Merging two of the labels in use, each of which labels itself, keeps
      the smaller one: the labels in use lose the larger one, and the others
      still label themselves. */
  lemma MergeLabelsActive(before: seq<int>, a: set<int>, left: int, right: int)
    requires Elems(before) == a && left < right && left in a && right in a
    requires forall x :: x in a ==> 0 <= x < |before| && before[x] == x
    ensures Elems(MergeLabels(before, left, right)) == a - {right}
    ensures forall x :: x in a - {right} ==> MergeLabels(before, left, right)[x] == x
  {
    var after := MergeLabels(before, left, right);
    forall x | x in Elems(after) ensures x in a - {right} {
      var i :| 0 <= i < |after| && after[i] == x;
      assert before[i] in Elems(before);
    }
    forall x | x in a - {right} ensures x in Elems(after) {
      assert after[x] == x;
    }
  }

  /** A cut of a complete linkage into k clusters yields exactly
      max(1, min(k, n)) distinct labels, numbered 0 onwards. */
  lemma CutClusterCount(rows: seq<LinkageRow>, k: int, n: nat)
    requires n >= 1 && WellFormed(n, rows) && |rows| == n - 1
    ensures |Unique(CutLabels(rows, k, n))| == if k >= n then n else if k <= 1 then 1 else k
    ensures Elems(CutLabels(rows, k, n)) == Range(|Unique(CutLabels(rows, k, n))|)
  {
    var steps := CutSteps(n, k, |rows|);
    var pre := rows[..steps];
    WellFormedPrefix(n, rows, steps);
    ActiveCount(n, pre);
    ApplyMergesTracksActive(n, pre);
    var merged := ApplyMerges(Identity(n), pre);
    UniqueCard(merged);
    RenumberOnto(merged);
  }

  // ---------------------------------------------------------------------
  // Silhouette

  /** Sum and number of the distances from i to the other points j < m
      that share its label. */
  function SameSum(dm: array2<real>, labels: seq<int>, i: nat, m: nat): real
    requires dm.Length0 == dm.Length1 == |labels| && i < |labels| && m <= |labels|
    reads dm
    decreases m
  {
    if m == 0 then 0.0
    else SameSum(dm, labels, i, m - 1)
         + (if m - 1 != i && labels[m - 1] == labels[i] then dm[i, m - 1] else 0.0)
  }

  function SameCount(labels: seq<int>, i: nat, m: nat): nat
    requires i < |labels| && m <= |labels|
    decreases m
  {
    if m == 0 then 0
    else SameCount(labels, i, m - 1) + (if m - 1 != i && labels[m - 1] == labels[i] then 1 else 0)
  }

  /** Sum and number of the distances from i to the points j < m labelled c. */
  function ClusterSum(dm: array2<real>, labels: seq<int>, i: nat, c: int, m: nat): real
    requires dm.Length0 == dm.Length1 == |labels| && i < |labels| && m <= |labels|
    reads dm
    decreases m
  {
    if m == 0 then 0.0
    else ClusterSum(dm, labels, i, c, m - 1) + (if labels[m - 1] == c then dm[i, m - 1] else 0.0)
  }

  function ClusterCount(labels: seq<int>, c: int, m: nat): nat
    requires m <= |labels|
    decreases m
  {
    if m == 0 then 0
    else ClusterCount(labels, c, m - 1) + (if labels[m - 1] == c then 1 else 0)
  }

  /** a(i): mean distance to the rest of its own cluster, 0 for a singleton. */
  function AValue(dm: array2<real>, labels: seq<int>, i: nat): real
    requires dm.Length0 == dm.Length1 == |labels| && i < |labels|
    reads dm
  {
    var c := SameCount(labels, i, |labels|);
    if c == 0 then 0.0 else SameSum(dm, labels, i, |labels|) / c as real
  }

  /** A running minimum that starts at infinity. */
  datatype Bound = Infinite | Finite(v: real)

  function MinBound(b: Bound, x: real): Bound
  {
    match b
    case Infinite => Finite(x)
    case Finite(v) => Finite(if v <= x then v else x)
  }

  /** The running minimum over the first m labels of us (the sorted distinct
      labels) of the mean distance from i to that cluster, skipping i's own. */
  function BMin(dm: array2<real>, labels: seq<int>, i: nat, us: seq<int>, m: nat): Bound
    requires dm.Length0 == dm.Length1 == |labels| && i < |labels| && m <= |us|
    reads dm
    decreases m
  {
    if m == 0 then Infinite
    else
      var b := BMin(dm, labels, i, us, m - 1);
      var c := us[m - 1];
      var cnt := ClusterCount(labels, c, |labels|);
      if c == labels[i] || cnt == 0 then b
      else MinBound(b, ClusterSum(dm, labels, i, c, |labels|) / cnt as real)
  }

  /** b(i): mean distance to the nearest other cluster, 0 if there is none. */
  function BValue(dm: array2<real>, labels: seq<int>, i: nat): real
    requires dm.Length0 == dm.Length1 == |labels| && i < |labels|
    reads dm
  {
    var us := Unique(labels);
    match BMin(dm, labels, i, us, |us|)
    case Infinite => 0.0
    case Finite(v) => v
  }

  /** s(i) = (b - a) / max(a, b), or 0 when that maximum is not positive. */
  function SValue(dm: array2<real>, labels: seq<int>, i: nat): real
    requires dm.Length0 == dm.Length1 == |labels| && i < |labels|
    reads dm
  {
    var a, b := AValue(dm, labels, i), BValue(dm, labels, i);
    var mx := Max(a, b);
    if mx > 0.0 then (b - a) / mx else 0.0
  }

  function SValues(dm: array2<real>, labels: seq<int>): (s: seq<real>)
    requires dm.Length0 == dm.Length1 == |labels|
    reads dm
    ensures |s| == |labels|
  {
    seq(|labels|, i requires 0 <= i < |labels| reads dm => SValue(dm, labels, i))
  }

  /** The mean silhouette value, or 0 when there are fewer than two
      clusters or every point is its own cluster. */
  function SilhouetteScore(dm: array2<real>, labels: seq<int>): real
    requires dm.Length0 == dm.Length1 == |labels|
    reads dm
  {
    var d := |Unique(labels)|;
    if d <= 1 || d >= |labels| then 0.0 else Mean(SValues(dm, labels))
  }

  ghost predicate NonNegative(dm: array2<real>)
    reads dm
  {
    forall i, j :: 0 <= i < dm.Length0 && 0 <= j < dm.Length1 ==> dm[i, j] >= 0.0
  }

  lemma {:induction false} SameSumNonNegative(dm: array2<real>, labels: seq<int>, i: nat, m: nat)
    requires dm.Length0 == dm.Length1 == |labels| && i < |labels| && m <= |labels|
    requires NonNegative(dm)
    ensures SameSum(dm, labels, i, m) >= 0.0
    decreases m
  {
    if m > 0 {
      SameSumNonNegative(dm, labels, i, m - 1);
    }
  }

  lemma {:induction false} ClusterSumNonNegative(dm: array2<real>, labels: seq<int>, i: nat, c: int, m: nat)
    requires dm.Length0 == dm.Length1 == |labels| && i < |labels| && m <= |labels|
    requires NonNegative(dm)
    ensures ClusterSum(dm, labels, i, c, m) >= 0.0
    decreases m
  {
    if m > 0 {
      ClusterSumNonNegative(dm, labels, i, c, m - 1);
    }
  }

  lemma {:induction false} BMinNonNegative(dm: array2<real>, labels: seq<int>, i: nat, us: seq<int>, m: nat)
    requires dm.Length0 == dm.Length1 == |labels| && i < |labels| && m <= |us|
    requires NonNegative(dm)
    ensures BMin(dm, labels, i, us, m).Finite? ==> BMin(dm, labels, i, us, m).v >= 0.0
    decreases m
  {
    if m > 0 {
      BMinNonNegative(dm, labels, i, us, m - 1);
      var c := us[m - 1];
      ClusterSumNonNegative(dm, labels, i, c, |labels|);
    }
  }

  /** A quotient whose numerator is bounded by its positive denominator
      lies in [-1, 1]. */
  lemma RatioInUnit(x: real, m: real)
    requires m > 0.0 && -m <= x <= m
    ensures -1.0 <= x / m <= 1.0
  {
    var q := x / m;
    assert q * m == x;
    assert (1.0 - q) * m == m - x;
    assert (1.0 + q) * m == m + x;
    NonNegFactor(1.0 - q, m);
    NonNegFactor(1.0 + q, m);
  }

  /** With non-negative distances every silhouette value, and therefore
      the score, lies in [-1, 1]. */
  lemma SilhouetteInRange(dm: array2<real>, labels: seq<int>)
    requires dm.Length0 == dm.Length1 == |labels|
    requires NonNegative(dm)
    ensures -1.0 <= SilhouetteScore(dm, labels) <= 1.0
  {
    var s := SValues(dm, labels);
    forall i | 0 <= i < |labels| ensures -1.0 <= s[i] <= 1.0 {
      SameSumNonNegative(dm, labels, i, |labels|);
      var us := Unique(labels);
      BMinNonNegative(dm, labels, i, us, |us|);
      var a, b := AValue(dm, labels, i), BValue(dm, labels, i);
      assert a >= 0.0 && b >= 0.0;
      if Max(a, b) > 0.0 {
        RatioInUnit(b - a, Max(a, b));
      }
    }
    if |labels| > 0 {
      MeanBounds(s, -1.0, 1.0);
    }
  }
}
