/**
 * The few `pathlib.PurePath` operations the category and rollback managers
 * use, on '/'-separated path strings: the last component (`name`), the
 * containing folder (`parent`), the split of a name into `stem` and
 * `suffix` as Python 3.12 does it, joining with `/`, and the numbered
 * sibling `{stem}_{n}{suffix}` used to avoid overwriting a file.
 */
module PathNames {
  import opened Text

  /** `s.rfind(c)`: the index of the last c in s, or -1. */
  function LastIndexOf(s: string, c: char): (k: int)
    ensures -1 <= k < |s|
    ensures k >= 0 ==> s[k] == c
    ensures forall i :: k < i < |s| ==> s[i] != c
    decreases |s|
  {
    if |s| == 0 then -1
    else if s[|s| - 1] == c then |s| - 1
    else LastIndexOf(s[..|s| - 1], c)
  }

  /** `PurePath.name`: what follows the last separator. */
  function Name(p: string): (n: string)
    ensures '/' !in n
    ensures |n| <= |p| && n == p[|p| - |n|..]
  {
    p[LastIndexOf(p, '/') + 1..]
  }

  /** `PurePath.parent`: what precedes the last separator; "." for a bare
      name and "/" for an entry of the root. */
  function Parent(p: string): string
  {
    var k := LastIndexOf(p, '/');
    if k < 0 then "." else if k == 0 then "/" else p[..k]
  }

  /** `folder / name`. */
  function Join(folder: string, name: string): string
  {
    folder + "/" + name
  }

  /** A name joined to a folder is that folder's entry under that name. */
  lemma JoinSplits(folder: string, name: string)
    requires folder != "" && '/' !in name
    ensures Name(Join(folder, name)) == name
    ensures Parent(Join(folder, name)) == folder
  {
    var p := Join(folder, name);
    assert p[|folder|] == '/';
    var k := LastIndexOf(p, '/');
    assert forall i :: |folder| < i < |p| ==> p[i] == name[i - |folder| - 1];
    assert p[k + 1..] == name;
    if k > 0 {
      assert p[..k] == folder;
    }
  }

  /** Different names give different entries of one folder. */
  lemma JoinInjective(folder: string, a: string, b: string)
    ensures Join(folder, a) == Join(folder, b) ==> a == b
  {
    if Join(folder, a) == Join(folder, b) {
      var n := |folder| + 1;
      assert a == Join(folder, a)[n..];
      assert b == Join(folder, b)[n..];
    }
  }

  /** A name is never "." or "/", so every parent is a non-empty path. */
  lemma ParentNonEmpty(p: string)
    ensures Parent(p) != ""
  {
  }

  /** The parent of a nested path is strictly shorter than the path. */
  lemma ParentShorter(p: string)
    requires LastIndexOf(p, '/') > 0
    ensures |Parent(p)| < |p|
  {
  }

  /** Where the suffix of a name starts: at its last dot when that dot is
      neither the first nor the last character, otherwise at the end. */
  function SuffixStart(name: string): (i: nat)
    ensures i <= |name|
  {
    var i := LastIndexOf(name, '.');
    if 0 < i < |name| - 1 then i else |name|
  }

  /** `PurePath.stem`. */
  function Stem(name: string): string
  {
    name[..SuffixStart(name)]
  }

  /** `PurePath.suffix`. */
  function Suffix(name: string): string
  {
    name[SuffixStart(name)..]
  }

  /** The stem followed by the suffix is the name again; a suffix is empty
      or a dot followed by at least one character and no further dot. */
  lemma StemSuffix(name: string)
    ensures Stem(name) + Suffix(name) == name
    ensures Suffix(name) == "" || (|Suffix(name)| >= 2 && Suffix(name)[0] == '.' && '.' !in Suffix(name)[1..])
    ensures '/' !in name ==> '/' !in Stem(name) && '/' !in Suffix(name)
  {
    var i := SuffixStart(name);
    assert name == name[..i] + name[i..];
    if i < |name| {
      var s := name[i..];
      forall j | 1 <= j < |s|
        ensures s[j] != '.'
      {
        assert s[j] == name[i + j];
      }
    }
  }

  /** `parent / f"{stem}_{n}{suffix}"`: the n-th numbered sibling of p. */
  function Numbered(p: string, n: nat): string
  {
    var name := Name(p);
    Join(Parent(p), Stem(name) + "_" + NatToString(n) + Suffix(name))
  }

  /** A numbered sibling lies in the same folder as p and is named after
      p's stem, the number and p's suffix. */
  lemma NumberedSibling(p: string, n: nat)
    ensures Parent(Numbered(p, n)) == Parent(p)
    ensures Name(Numbered(p, n)) == Stem(Name(p)) + "_" + NatToString(n) + Suffix(Name(p))
  {
    var name := Name(p);
    StemSuffix(name);
    var numbered := Stem(name) + "_" + NatToString(n) + Suffix(name);
    assert '/' !in numbered by {
      assert forall c :: c in numbered ==> c in Stem(name) || c == '_' || c in NatToString(n) || c in Suffix(name);
    }
    JoinSplits(Parent(p), numbered);
  }

  /** Different numbers give different siblings. */
  lemma NumberedInjective(p: string, n: nat, m: nat)
    ensures Numbered(p, n) == Numbered(p, m) ==> n == m
  {
    if Numbered(p, n) == Numbered(p, m) {
      var folder, stem, back := Parent(p), Stem(Name(p)), Suffix(Name(p));
      NumberCancels(folder, stem, NatToString(n), NatToString(m), back);
      NatToStringInjective(n, m);
    }
  }

  lemma NumberCancels(folder: string, stem: string, x: string, y: string, back: string)
    requires Join(folder, stem + "_" + x + back) == Join(folder, stem + "_" + y + back)
    ensures x == y
  {
    var s := Join(folder, stem + "_" + x + back);
    var front := |folder| + |stem| + 2;
    assert x == s[front..|s| - |back|];
    assert y == s[front..|s| - |back|];
  }
}
