/**
 * Sequence helpers over integer labels: numpy's `np.unique` (the sorted
 * distinct values), positions in a sorted list, and counting.
 */
module SeqUtil {

  predicate StrictlyIncreasing(s: seq<int>)
  {
    forall i, j :: 0 <= i < j < |s| ==> s[i] < s[j]
  }

  function Elems(s: seq<int>): set<int>
  {
    set x | x in s
  }

  /** Puts x into a strictly increasing list unless it is already there. */
  function InsertSorted(u: seq<int>, x: int): (r: seq<int>)
    requires StrictlyIncreasing(u)
    ensures StrictlyIncreasing(r)
    ensures forall y :: y in r <==> y in u || y == x
    decreases |u|
  {
    if |u| == 0 then [x]
    else if x < u[0] then [x] + u
    else if x == u[0] then u
    else
      var r := InsertSorted(u[1..], x);
      assert StrictlyIncreasing([u[0]] + r) by {
        forall k | 0 <= k < |r|
          ensures u[0] < r[k]
        {
          assert r[k] in r;
          if r[k] != x {
            var m :| 0 <= m < |u| - 1 && u[1..][m] == r[k];
            assert u[m + 1] == r[k];
          }
        }
      }
      [u[0]] + r
  }

  /** `np.unique`: the distinct values of s in increasing order. */
  function Unique(s: seq<int>): (u: seq<int>)
    ensures StrictlyIncreasing(u)
    ensures forall x :: x in u <==> x in s
    decreases |s|
  {
    if |s| == 0 then []
    else InsertSorted(Unique(s[..|s| - 1]), s[|s| - 1])
  }

  /** The position of x in a list that holds it; for a strictly increasing
      list it is the only one. */
  function IndexOf(u: seq<int>, x: int): (i: nat)
    requires x in u
    ensures i < |u| && u[i] == x
    ensures StrictlyIncreasing(u) ==> forall j :: 0 <= j < |u| && u[j] == x ==> j == i
    decreases |u|
  {
    if u[0] == x then 0 else 1 + IndexOf(u[1..], x)
  }

  /** A strictly increasing list has as many elements as distinct values. */
  lemma {:induction false} IncreasingCard(u: seq<int>)
    requires StrictlyIncreasing(u)
    ensures |Elems(u)| == |u|
    decreases |u|
  {
    if |u| > 0 {
      var w := u[..|u| - 1];
      IncreasingCard(w);
      assert Elems(u) == Elems(w) + {u[|u| - 1]};
      assert u[|u| - 1] !in Elems(w);
    }
  }

  /** `len(np.unique(s))` counts the distinct values of s. */
  lemma UniqueCard(s: seq<int>)
    ensures |Unique(s)| == |Elems(s)|
  {
    var u := Unique(s);
    IncreasingCard(u);
    assert Elems(u) == Elems(s);
  }

  /** `list.count(x)`. */
  function Count<T(==)>(s: seq<T>, x: T): nat
    decreases |s|
  {
    if |s| == 0 then 0
    else Count(s[..|s| - 1], x) + (if s[|s| - 1] == x then 1 else 0)
  }

  lemma {:induction false} CountPositive<T>(s: seq<T>, x: T)
    ensures Count(s, x) > 0 <==> x in s
    decreases |s|
  {
    if |s| > 0 {
      CountPositive(s[..|s| - 1], x);
      assert s == s[..|s| - 1] + [s[|s| - 1]];
    }
  }

  /** The position of some occurrence of x in s. */
  function Find<T(==)>(s: seq<T>, x: T): (i: nat)
    requires x in s
    ensures i < |s| && s[i] == x
    decreases |s|
  {
    if s[0] == x then 0 else 1 + Find(s[1..], x)
  }

  /** A prefix one longer is the prefix followed by the next element. */
  lemma PrefixStep<T>(s: seq<T>, i: nat)
    requires i < |s|
    ensures s[..i + 1] == s[..i] + [s[i]]
  {
  }

  lemma CountStep<T>(s: seq<T>, m: nat, x: T)
    requires m < |s|
    ensures Count(s[..m + 1], x) == Count(s[..m], x) + (if s[m] == x then 1 else 0)
  {
    assert s[..m + 1][..m] == s[..m];
  }

  /** Counting over a longer prefix never gives less. */
  lemma {:induction false} CountPrefixMono<T>(s: seq<T>, m: nat, n: nat, x: T)
    requires m <= n <= |s|
    ensures Count(s[..m], x) <= Count(s[..n], x)
    decreases n - m
  {
    if m < n {
      CountStep(s, m, x);
      CountPrefixMono(s, m + 1, n, x);
    }
  }

  /** Two occurrences make a count of at least two. */
  lemma TwoIndicesCount<T>(s: seq<T>, x: T, j1: int, j2: int)
    ensures 0 <= j1 < j2 < |s| && s[j1] == x && s[j2] == x ==> Count(s, x) >= 2
  {
    if 0 <= j1 < j2 < |s| && s[j1] == x && s[j2] == x {
      CountStep(s, j1, x);
      CountPrefixMono(s, j1 + 1, j2, x);
      CountStep(s, j2, x);
      CountPrefixMono(s, j2 + 1, |s|, x);
      assert s[..|s|] == s;
    }
  }

  /** An occurrence at j that is not the first one makes a count of at least two. */
  lemma RepeatCount<T>(s: seq<T>, x: T, j: nat)
    requires j < |s| && s[j] == x
    ensures Count(s[..j], x) > 0 ==> Count(s, x) >= 2
  {
    CountStep(s, j, x);
    CountPrefixMono(s, j + 1, |s|, x);
    assert s[..|s|] == s;
  }

  /** A value counted more than once has an occurrence after its first. */
  lemma {:induction false} LaterOccurrence<T>(s: seq<T>, x: T) returns (j: nat)
    requires Count(s, x) > 1
    ensures j < |s| && s[j] == x && Count(s[..j], x) > 0
    decreases |s|
  {
    var n := |s|;
    var init := s[..n - 1];
    assert s == init + [s[n - 1]];
    if s[n - 1] == x && Count(init, x) > 0 {
      j := n - 1;
    } else {
      j := LaterOccurrence(init, x);
      assert init[..j] == s[..j];
    }
  }

  /** The set {0, ..., n-1}. */
  function Range(n: nat): (r: set<int>)
    ensures |r| == n
    ensures forall x :: x in r <==> 0 <= x < n
  {
    if n == 0 then {} else
      var r := Range(n - 1);
      assert n - 1 !in r;
      r + {n - 1}
  }

  lemma SubsetCard(a: set<int>, b: set<int>)
    requires a <= b
    ensures |a| <= |b|
  {
    assert b == a + (b - a);
  }

  /** The smallest member of s in [lo, n), or n when there is none. */
  function FirstIn(s: set<int>, lo: int, n: int): (r: int)
    requires lo <= n
    ensures lo <= r <= n
    ensures r < n ==> r in s
    ensures forall x :: lo <= x < r ==> x !in s
    decreases n - lo
  {
    if lo == n then n else if lo in s then lo else FirstIn(s, lo + 1, n)
  }

  lemma NoneInRange(s: set<int>, n: int)
    requires 0 <= n
    requires forall x :: x in s ==> 0 <= x < n
    ensures FirstIn(s, 0, n) == n ==> |s| == 0
  {
    if FirstIn(s, 0, n) == n {
      assert s == {};
    }
  }

  lemma OnlyMinimum(s: set<int>, a: int, n: int)
    requires a < n && a in s
    requires forall x :: x in s ==> a <= x < n
    ensures FirstIn(s, a + 1, n) == n ==> |s| <= 1
  {
    if FirstIn(s, a + 1, n) == n {
      SubsetCard(s, {a});
    }
  }

  /** A set of at least two indices below n holds an ordered pair. */
  lemma TwoMembers(s: set<int>, n: int) returns (a: int, b: int)
    requires forall x :: x in s ==> 0 <= x < n
    requires |s| >= 2
    ensures a in s && b in s && a < b
  {
    var m := if n < 0 then 0 else n;
    NoneInRange(s, m);
    a := FirstIn(s, 0, m);
    OnlyMinimum(s, a, m);
    b := FirstIn(s, a + 1, m);
  }
}
