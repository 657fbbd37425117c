/**
 * Python's `list.sort(key=..., reverse=True)`: a stable sort into
 * non-increasing key order.  Elements with equal keys keep their original
 * relative order, which is what the insertion below does: a new element is
 * placed after every element whose key is at least its own.
 */
module Sorting {
  import opened RealMath

  ghost predicate SortedDesc<T>(s: seq<T>, key: T -> real)
  {
    forall i, j :: 0 <= i < j < |s| ==> key(s[i]) >= key(s[j])
  }

  function Keys<T>(s: seq<T>, key: T -> real): (ks: seq<real>)
    ensures |ks| == |s|
    ensures forall i :: 0 <= i < |s| ==> ks[i] == key(s[i])
  {
    seq(|s|, i requires 0 <= i < |s| => key(s[i]))
  }

  /** Inserts x behind every element whose key is at least key(x). */
  function InsertDesc<T>(s: seq<T>, x: T, key: T -> real): (r: seq<T>)
    ensures |r| == |s| + 1
    decreases |s|
  {
    if |s| == 0 then [x]
    else if key(s[0]) >= key(x) then [s[0]] + InsertDesc(s[1..], x, key)
    else [x] + s
  }

  function SortDesc<T>(s: seq<T>, key: T -> real): (r: seq<T>)
    ensures |r| == |s|
    decreases |s|
  {
    if |s| == 0 then [] else InsertDesc(SortDesc(s[..|s| - 1], key), s[|s| - 1], key)
  }

  lemma SumSingle(k: real)
    ensures Sum([k]) == k
  {
    assert [k][..0] == [];
  }

  lemma KeysAppend<T>(a: seq<T>, b: seq<T>, key: T -> real)
    ensures Keys(a + b, key) == Keys(a, key) + Keys(b, key)
  {
  }

  lemma {:induction false} InsertDescPermutes<T>(s: seq<T>, x: T, key: T -> real)
    ensures multiset(InsertDesc(s, x, key)) == multiset(s) + multiset{x}
    decreases |s|
  {
    if |s| > 0 && key(s[0]) >= key(x) {
      InsertDescPermutes(s[1..], x, key);
      assert s == [s[0]] + s[1..];
    }
  }

  lemma {:induction false} InsertDescSorted<T>(s: seq<T>, x: T, key: T -> real)
    requires SortedDesc(s, key)
    ensures SortedDesc(InsertDesc(s, x, key), key)
    decreases |s|
  {
    if |s| > 0 && key(s[0]) >= key(x) {
      var t := s[1..];
      InsertDescSorted(t, x, key);
      InsertDescPermutes(t, x, key);
      var rt := InsertDesc(t, x, key);
      forall i | 0 <= i < |rt| ensures key(s[0]) >= key(rt[i]) {
        assert rt[i] in multiset(rt);
        if rt[i] != x {
          assert rt[i] in multiset(t);
        }
      }
    }
  }

  lemma {:induction false} InsertDescKeySum<T>(s: seq<T>, x: T, key: T -> real)
    ensures Sum(Keys(InsertDesc(s, x, key), key)) == Sum(Keys(s, key)) + key(x)
    decreases |s|
  {
    var r := InsertDesc(s, x, key);
    SumSingle(key(x));
    if |s| == 0 {
      assert Keys(r, key) == [key(x)];
    } else if key(s[0]) >= key(x) {
      var t, rt := s[1..], InsertDesc(s[1..], x, key);
      InsertDescKeySum(t, x, key);
      assert s == [s[0]] + t;
      KeysAppend([s[0]], rt, key);
      KeysAppend([s[0]], t, key);
      SumAppend(Keys([s[0]], key), Keys(rt, key));
      SumAppend(Keys([s[0]], key), Keys(t, key));
    } else {
      KeysAppend([x], s, key);
      SumAppend(Keys([x], key), Keys(s, key));
      assert Keys([x], key) == [key(x)];
    }
  }

  /** The sorted list is in non-increasing key order, is a permutation of
      the input, and has the same total key. */
  lemma SortDescFacts<T>(s: seq<T>, key: T -> real)
    ensures SortedDesc(SortDesc(s, key), key)
    ensures multiset(SortDesc(s, key)) == multiset(s)
    ensures |SortDesc(s, key)| == |s|
    ensures Sum(Keys(SortDesc(s, key), key)) == Sum(Keys(s, key))
  {
    SortDescSorted(s, key);
    SortDescPermutes(s, key);
    SortDescKeySum(s, key);
  }

  lemma {:induction false} SortDescSorted<T>(s: seq<T>, key: T -> real)
    ensures SortedDesc(SortDesc(s, key), key)
    decreases |s|
  {
    if |s| > 0 {
      SortDescSorted(s[..|s| - 1], key);
      InsertDescSorted(SortDesc(s[..|s| - 1], key), s[|s| - 1], key);
    }
  }

  lemma {:induction false} SortDescPermutes<T>(s: seq<T>, key: T -> real)
    ensures multiset(SortDesc(s, key)) == multiset(s)
    decreases |s|
  {
    if |s| > 0 {
      var init, last := s[..|s| - 1], s[|s| - 1];
      SortDescPermutes(init, key);
      InsertDescPermutes(SortDesc(init, key), last, key);
      assert s == init + [last];
    }
  }

  lemma {:induction false} SortDescKeySum<T>(s: seq<T>, key: T -> real)
    ensures Sum(Keys(SortDesc(s, key), key)) == Sum(Keys(s, key))
    decreases |s|
  {
    if |s| > 0 {
      var init, last := s[..|s| - 1], s[|s| - 1];
      SortDescKeySum(init, key);
      InsertDescKeySum(SortDesc(init, key), last, key);
      KeySumLast(s, key);
    }
  }

  /** The total key is that of all but the last element plus the last key. */
  lemma KeySumLast<T>(s: seq<T>, key: T -> real)
    requires |s| > 0
    ensures Sum(Keys(s, key)) == Sum(Keys(s[..|s| - 1], key)) + key(s[|s| - 1])
  {
    var ks := Keys(s, key);
    assert ks[..|s| - 1] == Keys(s[..|s| - 1], key);
  }

  /** The first of a sorted non-empty list is one of its entries with the
      largest key. */
  lemma SortDescFirstIsMax<T>(s: seq<T>, key: T -> real)
    requires |s| > 0
    ensures |SortDesc(s, key)| > 0 && SortDesc(s, key)[0] in s
    ensures forall d :: d in s ==> key(d) <= key(SortDesc(s, key)[0])
  {
    SortDescFacts(s, key);
    var sorted := SortDesc(s, key);
    assert sorted[0] in multiset(sorted);
    forall d | d in s ensures key(d) <= key(sorted[0]) {
      assert d in multiset(s);
      var j :| 0 <= j < |sorted| && sorted[j] == d;
    }
  }

  /** Sorting keeps the total of the keys. */
  lemma SortDescKeepsSum<T>(s: seq<T>, key: T -> real)
    ensures Sum(Keys(SortDesc(s, key), key)) == Sum(Keys(s, key))
  {
    SortDescFacts(s, key);
  }

}
