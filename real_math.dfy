/**
 * Real-number helpers shared by the model: finite sums, two-decimal
 * rounding as Python's round(x, 2) does it on exact values, and the three
 * transcendental functions the source takes from numpy and math.
 *
 * Python floats are modelled as mathematical reals; NaN and infinities do
 * not exist here.
 */
module RealMath {

  /** sqrt, exp and ln are library calls in the source.  They are passed
      around as values; `Sound` lists the only facts the proofs rely on. */
  datatype RealOps = RealOps(sqrt: real -> real, exp: real -> real, ln: real -> real)

  ghost predicate Sound(ops: RealOps)
  {
    && (forall x: real :: x >= 0.0 ==> ops.sqrt(x) >= 0.0 && ops.sqrt(x) * ops.sqrt(x) == x)
    && (forall x: real :: ops.exp(x) > 0.0)
    && (forall x: real :: x <= 0.0 ==> ops.exp(x) <= 1.0)
    && ops.exp(0.0) == 1.0
    && ops.ln(1.0) == 0.0
    && (forall x: real :: 0.0 < x <= 1.0 ==> ops.ln(x) <= 0.0)
  }

  /** Squaring is monotone on the non-negative reals. */
  lemma SquareMonotone(a: real, b: real)
    requires 0.0 <= a <= b
    ensures a * a <= b * b
  {
    assert b * b - a * a == (b - a) * (b + a);
    assert (b - a) * (b + a) >= 0.0;
  }

  /** A non-negative number is determined by its square. */
  lemma SquareInjective(x: real, s: real)
    requires x >= 0.0 && s >= 0.0 && s * s == x * x
    ensures s == x
  {
    SquareLeOrdered(x, s);
    SquareLeOrdered(s, x);
  }

  /** Comparing squares of non-negative numbers compares the numbers. */
  lemma SquareLeOrdered(a: real, b: real)
    requires 0.0 <= a && 0.0 <= b && a * a <= b * b
    ensures a <= b
  {
    var p := b + a;
    assert (b - a) * p == b * b - a * a;
    if p > 0.0 {
      assert b - a == ((b - a) * p) / p;
    }
  }

  /** Multiplying both sides by a non-negative factor keeps an inequality. */
  lemma ScaleLe(k: real, a: real, c: real)
    requires k >= 0.0 && a >= c
    ensures k * a >= k * c
  {
    assert k * (a - c) >= 0.0;
    assert k * a - k * c == k * (a - c);
  }

  /** A product with a positive factor is non-negative only if the other
      factor is. */
  lemma NonNegFactor(p: real, m: real)
    requires m > 0.0 && p * m >= 0.0
    ensures p >= 0.0
  {
    assert p == (p * m) / m;
  }

  lemma SqrtOfSquare(ops: RealOps, x: real)
    requires Sound(ops) && x >= 0.0
    ensures ops.sqrt(x * x) == x
  {
    SquareInjective(x, ops.sqrt(x * x));
  }

  /** sqrt is monotone on the non-negative reals. */
  lemma SqrtMonotone(ops: RealOps, x: real, y: real)
    requires Sound(ops) && 0.0 <= x <= y
    ensures ops.sqrt(x) <= ops.sqrt(y)
  {
    SquareLeOrdered(ops.sqrt(x), ops.sqrt(y));
  }

  /** Finite sum of a sequence, folded from the left as numpy does. */
  function Sum(s: seq<real>): real
    decreases |s|
  {
    if |s| == 0 then 0.0 else Sum(s[..|s| - 1]) + s[|s| - 1]
  }

  lemma {:induction false} SumAppend(a: seq<real>, b: seq<real>)
    ensures Sum(a + b) == Sum(a) + Sum(b)
    decreases |b|
  {
    if |b| == 0 {
      assert a + b == a;
    } else {
      assert (a + b)[..|a + b| - 1] == a + b[..|b| - 1];
      SumAppend(a, b[..|b| - 1]);
    }
  }

  lemma {:induction false} SumNonNegative(s: seq<real>)
    requires forall i :: 0 <= i < |s| ==> s[i] >= 0.0
    ensures Sum(s) >= 0.0
    decreases |s|
  {
    if |s| > 0 {
      SumNonNegative(s[..|s| - 1]);
    }
  }

  /** Each term between lo and hi bounds the sum by |s|·lo and |s|·hi. */
  lemma {:induction false} SumBounds(s: seq<real>, lo: real, hi: real)
    requires forall i :: 0 <= i < |s| ==> lo <= s[i] <= hi
    ensures |s| as real * lo <= Sum(s) <= |s| as real * hi
    decreases |s|
  {
    if |s| > 0 {
      var m := (|s| - 1) as real;
      SumBounds(s[..|s| - 1], lo, hi);
      assert m * lo + lo == |s| as real * lo;
      assert m * hi + hi == |s| as real * hi;
    }
  }

  /** A sum is unchanged by reordering its terms. */
  lemma {:induction false} SumPermutation(a: seq<real>, b: seq<real>)
    requires multiset(a) == multiset(b)
    ensures Sum(a) == Sum(b)
    decreases |a|
  {
    if |a| == 0 {
      assert |b| == |multiset(b)| == 0;
    } else {
      var x := a[|a| - 1];
      assert x in multiset(a);
      assert x in b;
      var k :| 0 <= k < |b| && b[k] == x;
      var b' := b[..k] + b[k + 1..];
      assert b == b[..k] + [x] + b[k + 1..];
      assert a == a[..|a| - 1] + [x];
      assert multiset(a[..|a| - 1]) == multiset(b') by {
        calc {
          multiset(a[..|a| - 1]) + multiset([x]);
          multiset(a);
          multiset(b);
          multiset(b[..k] + [x] + b[k + 1..]);
          multiset(b[..k]) + multiset([x]) + multiset(b[k + 1..]);
          multiset(b') + multiset([x]);
        }
        forall y: real ensures multiset(a[..|a| - 1])[y] == multiset(b')[y] {
          assert (multiset(a[..|a| - 1]) + multiset([x]))[y] == (multiset(b') + multiset([x]))[y];
        }
      }
      SumPermutation(a[..|a| - 1], b');
      SumAppend(b[..k] + [x], b[k + 1..]);
      SumAppend(b[..k], [x]);
      SumAppend(b[..k], b[k + 1..]);
      assert Sum([x]) == x by {
        assert [x][..0] == [];
      }
    }
  }

  /** The arithmetic mean, as np.mean; the empty case is left to callers. */
  function Mean(s: seq<real>): real
    requires |s| > 0
  {
    Sum(s) / |s| as real
  }

  lemma MeanBounds(s: seq<real>, lo: real, hi: real)
    requires |s| > 0
    requires forall i :: 0 <= i < |s| ==> lo <= s[i] <= hi
    ensures lo <= Mean(s) <= hi
  {
    SumBounds(s, lo, hi);
    var n := |s| as real;
    assert n * lo <= Sum(s) <= n * hi;
    assert lo == (n * lo) / n && hi == (n * hi) / n;
  }

  function Max(a: real, b: real): real { if a >= b then a else b }
  function Min(a: real, b: real): real { if a <= b then a else b }
  function Abs(a: real): real { if a >= 0.0 then a else -a }

  /** A value with at most two decimals, i.e. an integer number of hundredths. */
  ghost predicate IsCents(x: real)
  {
    (x * 100.0).Floor as real == x * 100.0
  }

  /** Python's round(x, 2) on an exact value: to the nearest hundredth, a
      tie going to the even hundredth. */
  function Round2(x: real): (r: real)
    ensures IsCents(r)
    ensures Abs(r - x) <= 0.005
  {
    var y := x * 100.0;
    var f := y.Floor;
    var frac := y - f as real;
    var k := if frac > 0.5 then f + 1
             else if frac < 0.5 then f
             else if f % 2 == 0 then f
             else f + 1;
    assert (k as real / 100.0) * 100.0 == k as real;
    k as real / 100.0
  }

  lemma Round2OfCents(x: real)
    requires IsCents(x)
    ensures Round2(x) == x
  {
    var y := x * 100.0;
    assert y.Floor as real == y;
  }

  lemma CentsSum(a: real, b: real)
    requires IsCents(a) && IsCents(b)
    ensures IsCents(a + b) && IsCents(a - b)
  {
    var ka, kb := (a * 100.0).Floor, (b * 100.0).Floor;
    assert a * 100.0 == ka as real && b * 100.0 == kb as real;
    assert (a + b) * 100.0 == a * 100.0 + b * 100.0;
    assert (a - b) * 100.0 == a * 100.0 - b * 100.0;
    assert ((ka + kb) as real).Floor == ka + kb;
    assert ((ka - kb) as real).Floor == ka - kb;
  }

  lemma {:induction false} SumOfCents(s: seq<real>)
    requires forall i :: 0 <= i < |s| ==> IsCents(s[i])
    ensures IsCents(Sum(s))
    decreases |s|
  {
    if |s| == 0 {
      assert 0.0 * 100.0 == 0.0;
    } else {
      SumOfCents(s[..|s| - 1]);
      CentsSum(Sum(s[..|s| - 1]), s[|s| - 1]);
    }
  }

  /** Rounding each of n terms to hundredths moves their sum by at most
      n times 0.005. */
  lemma {:induction false} RoundedSum(s: seq<real>, r: seq<real>)
    requires |r| == |s|
    requires forall i :: 0 <= i < |s| ==> r[i] == Round2(s[i])
    ensures Abs(Sum(r) - Sum(s)) <= |s| as real * 0.005
    decreases |s|
  {
    if |s| > 0 {
      var n := |s| - 1;
      RoundedSum(s[..n], r[..n]);
    }
  }

  /** Two amounts in hundredths that differ by at most a thousandth are equal. */
  lemma CentsClose(a: real, b: real)
    requires IsCents(a) && IsCents(b)
    requires Abs(a - b) <= 0.001
    ensures a == b
  {
    var ka, kb := (a * 100.0).Floor, (b * 100.0).Floor;
    assert (a - b) * 100.0 == (ka - kb) as real;
    assert -0.1 <= (ka - kb) as real <= 0.1;
  }

  /** The position of the first smallest entry, as numpy's argmin picks it. */
  function FirstArgMin(ds: seq<real>): (r: nat)
    requires |ds| > 0
    ensures r < |ds|
    ensures forall j :: 0 <= j < |ds| ==> ds[r] <= ds[j]
    ensures forall j :: 0 <= j < r ==> ds[j] > ds[r]
    decreases |ds|
  {
    if |ds| == 1 then 0
    else
      var m := FirstArgMin(ds[..|ds| - 1]);
      if ds[|ds| - 1] < ds[m] then |ds| - 1 else m
  }

  /** The position of the first largest entry, as Python's max(..., key=...)
      picks it. */
  function FirstArgMax(ds: seq<real>): (r: nat)
    requires |ds| > 0
    ensures r < |ds|
    ensures forall j :: 0 <= j < |ds| ==> ds[r] >= ds[j]
    ensures forall j :: 0 <= j < r ==> ds[j] < ds[r]
    decreases |ds|
  {
    if |ds| == 1 then 0
    else
      var m := FirstArgMax(ds[..|ds| - 1]);
      if ds[|ds| - 1] > ds[m] then |ds| - 1 else m
  }

  /** Raising one term raises the sum by the same amount. */
  lemma {:induction false} SumUpdate(s: seq<real>, k: nat, d: real)
    requires k < |s|
    ensures Sum(s[k := s[k] + d]) == Sum(s) + d
    decreases |s|
  {
    var t := s[k := s[k] + d];
    if k < |s| - 1 {
      assert t[..|t| - 1] == s[..|s| - 1][k := s[k] + d];
      SumUpdate(s[..|s| - 1], k, d);
    } else {
      assert t[..|t| - 1] == s[..|s| - 1];
    }
  }

  /** Dividing every term by d and scaling by 100 does the same to the sum. */
  lemma {:induction false} SumPercent(s: seq<real>, t: seq<real>, d: real)
    requires d != 0.0 && |t| == |s|
    requires forall i :: 0 <= i < |s| ==> t[i] == s[i] / d * 100.0
    ensures Sum(t) == Sum(s) / d * 100.0
    decreases |s|
  {
    if |s| > 0 {
      var n := |s| - 1;
      SumPercent(s[..n], t[..n], d);
      assert Sum(s[..n]) / d + s[n] / d == (Sum(s[..n]) + s[n]) / d;
    }
  }

  /** Dividing every term by d divides the sum by d. */
  lemma {:induction false} SumDivide(s: seq<real>, t: seq<real>, d: real)
    requires d != 0.0 && |t| == |s|
    requires forall i :: 0 <= i < |s| ==> t[i] == s[i] / d
    ensures Sum(t) == Sum(s) / d
    decreases |s|
  {
    if |s| > 0 {
      var n := |s| - 1;
      SumDivide(s[..n], t[..n], d);
      assert Sum(s[..n]) / d + s[n] / d == (Sum(s[..n]) + s[n]) / d;
    }
  }

  /** A sum of non-negative terms is zero only when every term is. */
  lemma {:induction false} SumZero(s: seq<real>)
    requires forall i :: 0 <= i < |s| ==> s[i] >= 0.0
    ensures Sum(s) == 0.0 ==> forall i :: 0 <= i < |s| ==> s[i] == 0.0
    decreases |s|
  {
    if |s| > 0 {
      var n := |s| - 1;
      SumNonNegative(s[..n]);
      SumZero(s[..n]);
    }
  }

  /** A constant sequence sums to its length times the constant. */
  lemma SumConstant(s: seq<real>, c: real)
    requires forall i :: 0 <= i < |s| ==> s[i] == c
    ensures Sum(s) == |s| as real * c
  {
    SumBounds(s, c, c);
  }

  // ---------------------------------------------------------------------
  // Weighted sums

  /** The element-wise product `a * b` of two numpy arrays. */
  function Products(a: seq<real>, b: seq<real>): (p: seq<real>)
    requires |a| == |b|
    ensures |p| == |a| && forall i :: 0 <= i < |a| ==> p[i] == a[i] * b[i]
  {
    seq(|a|, i requires 0 <= i < |a| => a[i] * b[i])
  }

  /** A weighting by non-negative h of values at least lo (where the
      weight is not zero) is at least lo times the total weight. */
  lemma WeightedLower(h: seq<real>, xs: seq<real>, lo: real)
    requires |h| == |xs|
    requires forall i :: 0 <= i < |h| ==> h[i] >= 0.0
    requires forall i :: 0 <= i < |h| && h[i] != 0.0 ==> lo <= xs[i]
    ensures lo * Sum(h) <= Sum(Products(h, xs))
  {
    ScaledBelowProducts(h, xs, lo);
    SumLe(Scaled(h, lo), Products(h, xs));
    SumScaled(h, lo);
  }

  lemma ScaledBelowProducts(h: seq<real>, xs: seq<real>, lo: real)
    requires |h| == |xs|
    requires forall i :: 0 <= i < |h| ==> h[i] >= 0.0
    requires forall i :: 0 <= i < |h| && h[i] != 0.0 ==> lo <= xs[i]
    ensures forall i :: 0 <= i < |h| ==> Scaled(h, lo)[i] <= Products(h, xs)[i]
  {
    var low, p := Scaled(h, lo), Products(h, xs);
    forall i | 0 <= i < |h| ensures low[i] <= p[i] {
      WeightLe(low[i], p[i], h[i], lo, xs[i]);
    }
  }

  /** The same bound from above. */
  lemma WeightedUpper(h: seq<real>, xs: seq<real>, hi: real)
    requires |h| == |xs|
    requires forall i :: 0 <= i < |h| ==> h[i] >= 0.0
    requires forall i :: 0 <= i < |h| && h[i] != 0.0 ==> xs[i] <= hi
    ensures Sum(Products(h, xs)) <= hi * Sum(h)
  {
    ProductsBelowScaled(h, xs, hi);
    SumLe(Products(h, xs), Scaled(h, hi));
    SumScaled(h, hi);
  }

  lemma ProductsBelowScaled(h: seq<real>, xs: seq<real>, hi: real)
    requires |h| == |xs|
    requires forall i :: 0 <= i < |h| ==> h[i] >= 0.0
    requires forall i :: 0 <= i < |h| && h[i] != 0.0 ==> xs[i] <= hi
    ensures forall i :: 0 <= i < |h| ==> Products(h, xs)[i] <= Scaled(h, hi)[i]
  {
    var high, p := Scaled(h, hi), Products(h, xs);
    forall i | 0 <= i < |h| ensures p[i] <= high[i] {
      WeightLe(p[i], high[i], h[i], xs[i], hi);
    }
  }

  /** A non-negative weight keeps an inequality that matters only where
      the weight is not zero. */
  lemma WeightLe(a: real, b: real, w: real, x: real, y: real)
    requires a == w * x && b == w * y
    requires w >= 0.0 && (w != 0.0 ==> x <= y)
    ensures a <= b
  {
    if w != 0.0 {
      ScaleLe(w, y, x);
    }
  }

  /** (a + b) * c == a * c + b * c. */
  lemma DistribRight(a: real, b: real, c: real)
    ensures (a + b) * c == a * c + b * c
  {
  }

  /** Every entry of h multiplied by c. */
  function Scaled(h: seq<real>, c: real): (r: seq<real>)
    ensures |r| == |h| && forall i :: 0 <= i < |h| ==> r[i] == h[i] * c
  {
    seq(|h|, i requires 0 <= i < |h| => h[i] * c)
  }

  /** Scaling every entry scales the sum. */
  lemma {:induction false} SumScaled(h: seq<real>, c: real)
    ensures Sum(Scaled(h, c)) == Sum(h) * c
    decreases |h|
  {
    if |h| > 0 {
      var n := |h| - 1;
      var r, init := Scaled(h, c), h[..n];
      assert r[..n] == Scaled(init, c) by {
        forall i | 0 <= i < n ensures r[..n][i] == Scaled(init, c)[i] {
          assert init[i] == h[i];
        }
      }
      SumScaled(init, c);
      DistribRight(Sum(init), h[n], c);
    }
  }

  /** A sum of entries that are each at most the matching entry of b is at
      most the sum of b. */
  lemma {:induction false} SumLe(a: seq<real>, b: seq<real>)
    requires |a| == |b| && forall i :: 0 <= i < |a| ==> a[i] <= b[i]
    ensures Sum(a) <= Sum(b)
    decreases |a|
  {
    if |a| > 0 {
      var n := |a| - 1;
      SumLe(a[..n], b[..n]);
    }
  }
}
