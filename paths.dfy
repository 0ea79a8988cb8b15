/**
 * `os.path.splitext` as the window uses it. The window opens folders with
 * `os.startfile`, which exists only on Windows, so `os.path` is `ntpath`:
 * both '/' and '\' separate path components.
 */
module Paths {

  const Separators: set<char> := {'/', '\\'}

  /** `str.rfind` for a set of characters: the last index holding one of `cs`, or -1. */
  function LastIndexIn(p: string, cs: set<char>): (r: int)
    ensures -1 <= r < |p|
    ensures r >= 0 ==> p[r] in cs
    ensures forall k :: r < k < |p| ==> p[k] !in cs
  {
    if p == [] then -1
    else if p[|p| - 1] in cs then |p| - 1
    else LastIndexIn(p[..|p| - 1], cs)
  }

  /** The three properties above determine the index. */
  lemma LastIndexUnique(p: string, cs: set<char>, r: int)
    requires -1 <= r < |p|
    requires r >= 0 ==> p[r] in cs
    requires forall k :: r < k < |p| ==> p[k] !in cs
    ensures LastIndexIn(p, cs) == r
  {
  }

  /** Some character strictly between `lo` and `hi` is not a dot. */
  predicate HasNonDot(p: string, lo: int, hi: int) {
    exists j :: lo < j < hi && 0 <= j < |p| && p[j] != '.'
  }

  /** The last component of `p` has a character other than '.', so a dot in front of an extension is not leading. */
  predicate HasStem(p: string) {
    HasNonDot(p, LastIndexIn(p, Separators), |p|)
  }

  /** What `splitext` may put in the extension: a dot, then neither dots nor separators. */
  predicate IsExtension(e: string) {
    |e| >= 1 && e[0] == '.' && forall k :: 1 <= k < |e| ==> e[k] != '.' && e[k] !in Separators
  }

  /**
   * `ntpath.splitext(p)`: split at the last dot when it lies in the last
   * path component and is not one of that component's leading dots;
   * otherwise the extension is empty.
   */
  function Splitext(p: string): (string, string)
  {
    var sep := LastIndexIn(p, Separators);
    var dot := LastIndexIn(p, {'.'});
    if dot > sep && HasNonDot(p, sep, dot) then (p[..dot], p[dot..]) else (p, "")
  }

  /**
   * The two parts put back together give the path; the extension is empty
   * or a proper extension, and when it is not empty the root keeps a stem.
   */
  lemma SplitextSpec(p: string)
    ensures Splitext(p).0 + Splitext(p).1 == p
    ensures Splitext(p).1 == "" || IsExtension(Splitext(p).1)
    ensures Splitext(p).1 != "" ==> HasStem(Splitext(p).0)
  {
    var sep := LastIndexIn(p, Separators);
    var dot := LastIndexIn(p, {'.'});
    if dot > sep && HasNonDot(p, sep, dot) {
      var root, ext := p[..dot], p[dot..];
      assert root + ext == p;
      forall k | 1 <= k < |ext| ensures ext[k] != '.' && ext[k] !in Separators {
        assert ext[k] == p[dot + k];
      }
      LastIndexUnique(root, Separators, sep);
      var j :| sep < j < dot && 0 <= j < |p| && p[j] != '.';
      assert root[j] == p[j];
    }
  }

  /** Replacing an extension and splitting again gives back the root and the new extension. */
  lemma {:induction false} SplitextRoundTrip(root: string, ext: string)
    requires HasStem(root) && IsExtension(ext)
    ensures Splitext(root + ext) == (root, ext)
  {
    var p := root + ext;
    var sep := LastIndexIn(root, Separators);
    forall k | sep < k < |p| ensures p[k] !in Separators {
      if k >= |root| { assert p[k] == ext[k - |root|]; }
    }
    LastIndexUnique(p, Separators, sep);
    forall k | |root| < k < |p| ensures p[k] !in {'.'} {
      assert p[k] == ext[k - |root|];
    }
    LastIndexUnique(p, {'.'}, |root|);
    var j :| sep < j < |root| && 0 <= j < |root| && root[j] != '.';
    assert p[j] == root[j];
    assert p[..|root|] == root && p[|root|..] == ext;
  }
}
