/**
 * The string operations the naming and path code relies on: decimal
 * formatting of a counter, the first field of `split('_')`, and
 * `startswith`.
 */
module Text {

  function DigitChar(d: nat): (c: char)
    requires d < 10
    ensures '0' <= c <= '9'
  {
    "0123456789"[d]
  }

  /** Decimal representation of a natural number, as Python's str(n). */
  function NatToString(n: nat): (s: string)
    ensures |s| >= 1
    ensures forall i :: 0 <= i < |s| ==> '0' <= s[i] <= '9'
    decreases n
  {
    if n < 10 then [DigitChar(n)] else NatToString(n / 10) + [DigitChar(n % 10)]
  }

  lemma DigitCharInjective(d: nat, e: nat)
    requires d < 10 && e < 10
    ensures DigitChar(d) == DigitChar(e) ==> d == e
  {
  }

  /** Different numbers print differently. */
  lemma {:induction false} NatToStringInjective(n: nat, m: nat)
    requires NatToString(n) == NatToString(m)
    ensures n == m
    decreases n
  {
    var s := NatToString(n);
    if n < 10 && m < 10 {
      DigitCharInjective(n, m);
    } else if n >= 10 && m >= 10 {
      var pn, pm := NatToString(n / 10), NatToString(m / 10);
      assert s == pn + [DigitChar(n % 10)] == pm + [DigitChar(m % 10)];
      assert pn == s[..|s| - 1] == pm;
      DigitCharInjective(n % 10, m % 10);
      NatToStringInjective(n / 10, m / 10);
    }
  }

  /** Digits contain no underscore. */
  lemma NoUnderscoreInNumber(n: nat)
    ensures '_' !in NatToString(n)
  {
  }

  /** `s.split('_')[0]`: the text before the first underscore, or all of s. */
  function Head(s: string): (h: string)
    ensures '_' !in h
    ensures |h| <= |s| && h == s[..|h|]
    ensures |h| < |s| ==> s[|h|] == '_'
    ensures '_' !in s ==> h == s
  {
    if |s| == 0 then ""
    else if s[0] == '_' then ""
    else [s[0]] + Head(s[1..])
  }

  /** `s.startswith(p)`. */
  predicate StartsWith(s: string, p: string)
  {
    |p| <= |s| && s[..|p|] == p
  }

  /** A suffixed name `b_t` splits back to `b` when b has no underscore. */
  lemma HeadOfSuffixed(b: string, t: string)
    requires '_' !in b
    ensures Head(b + "_" + t) == b
  {
    var s := b + "_" + t;
    var h := Head(s);
    assert s[..|b|] == b && s[|b|] == '_';
  }

  /** `b_t` starts with `c_` only when b and c are the same underscore-free word. */
  lemma SuffixedPrefix(b: string, t: string, c: string)
    requires '_' !in b && '_' !in c
    ensures StartsWith(b + "_" + t, c + "_") <==> b == c
  {
    var s, p := b + "_" + t, c + "_";
    if |p| <= |s| {
      if |c| < |b| {
        assert s[..|p|][|c|] == b[|c|] != '_' == p[|c|];
      } else if |c| > |b| {
        assert s[..|p|][|b|] == '_' != c[|b|] == p[|b|];
      } else if s[..|p|] == p {
        assert b == s[..|b|] == p[..|c|] == c;
      }
    }
  }

  /** A word without underscores never starts with `c_`. */
  lemma PlainPrefix(b: string, c: string)
    requires '_' !in b
    ensures !StartsWith(b, c + "_")
  {
    var p := c + "_";
    if |p| <= |b| {
      assert b[..|p|][|c|] == b[|c|] != '_' == p[|c|];
    }
  }

  /** Two suffixed names with underscore-free words are equal only when their
      words and their suffixes are. */
  lemma SuffixedInjective(b: string, t: string, c: string, u: string)
    requires '_' !in b && '_' !in c
    requires b + "_" + t == c + "_" + u
    ensures b == c && t == u
  {
    HeadOfSuffixed(b, t);
    HeadOfSuffixed(c, u);
    var s := b + "_" + t;
    assert t == s[|b| + 1..];
    assert u == s[|c| + 1..];
  }
}
