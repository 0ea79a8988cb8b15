/**
 * Which directory entries are frames, and in which order they are played.
 * Both the converter (convert.py) and the window's width scan (gui.py) keep
 * the entries whose lower-cased name ends in ".png" and sort them with
 * Python's ordering of `str`, which compares code points left to right.
 */
module FrameFiles {

  /** `str.lower()` restricted to ASCII letters; other characters are kept. */
  function AsciiLower(c: char): char {
    if 'A' <= c <= 'Z' then (c as int + 32) as char else c
  }

  function Lower(s: string): string {
    seq(|s|, i requires 0 <= i < |s| => AsciiLower(s[i]))
  }

  predicate EndsWith(s: string, suffix: string) {
    |suffix| <= |s| && s[|s| - |suffix|..] == suffix
  }

  /** The frame test of the list comprehension: `f.lower().endswith('.png')`. */
  predicate IsPng(name: string) {
    EndsWith(Lower(name), ".png")
  }

  /** The list comprehension: the entries that are frames, in listing order. */
  function PngEntries(entries: seq<string>): (r: seq<string>)
    ensures forall x :: multiset(r)[x] == if IsPng(x) then multiset(entries)[x] else 0
  {
    if entries == [] then []
    else
      assert entries == [entries[0]] + entries[1..];
      (if IsPng(entries[0]) then [entries[0]] else []) + PngEntries(entries[1..])
  }

  // ---------------------------------------------------------------------
  // Python's `<` on str: code-point lexicographic order, where a proper
  // prefix comes first. (Dafny's own `<` on sequences means proper prefix.)
  // ---------------------------------------------------------------------

  predicate Below(a: string, b: string)
  {
    if |a| == 0 then |b| > 0
    else if |b| == 0 then false
    else if a[0] != b[0] then a[0] < b[0]
    else Below(a[1..], b[1..])
  }

  predicate AtMost(a: string, b: string) {
    a == b || Below(a, b)
  }

  lemma {:induction false} BelowAsymmetric(a: string, b: string)
    ensures !(Below(a, b) && Below(b, a))
  {
    if |a| > 0 && |b| > 0 && a[0] == b[0] { BelowAsymmetric(a[1..], b[1..]); }
  }

  lemma {:induction false} BelowTransitive(a: string, b: string, c: string)
    requires Below(a, b) && Below(b, c)
    ensures Below(a, c)
  {
    if |a| > 0 && a[0] == b[0] && b[0] == c[0] {
      BelowTransitive(a[1..], b[1..], c[1..]);
    }
  }

  lemma {:induction false} BelowTotal(a: string, b: string)
    ensures a == b || Below(a, b) || Below(b, a)
  {
    if |a| > 0 && |b| > 0 && a[0] == b[0] {
      BelowTotal(a[1..], b[1..]);
      if a[1..] == b[1..] {
        assert a == [a[0]] + a[1..] && b == [b[0]] + b[1..];
      }
    }
  }

  lemma AtMostTransitive(a: string, b: string, c: string)
    requires AtMost(a, b) && AtMost(b, c)
    ensures AtMost(a, c)
  {
    if a != b && b != c { BelowTransitive(a, b, c); }
  }

  lemma AtMostAntisymmetric(a: string, b: string)
    requires AtMost(a, b) && AtMost(b, a)
    ensures a == b
  {
    BelowAsymmetric(a, b);
  }

  // ---------------------------------------------------------------------
  // `files.sort()`: what Python's sort leaves in the list is the ascending
  // permutation of its contents; it is written here as an insertion sort.
  // ---------------------------------------------------------------------

  predicate Sorted(s: seq<string>) {
    forall i, j :: 0 <= i < j < |s| ==> AtMost(s[i], s[j])
  }

  function Insert(x: string, s: seq<string>): seq<string>
  {
    if s == [] then [x]
    else if AtMost(x, s[0]) then [x] + s
    else [s[0]] + Insert(x, s[1..])
  }

  function Sort(s: seq<string>): seq<string>
  {
    if s == [] then [] else Insert(s[0], Sort(s[1..]))
  }

  lemma {:induction false} InsertPermutes(x: string, s: seq<string>)
    ensures multiset(Insert(x, s)) == multiset(s) + multiset{x}
  {
    if s != [] && !AtMost(x, s[0]) {
      InsertPermutes(x, s[1..]);
      assert s == [s[0]] + s[1..];
    }
  }

  lemma {:induction false} InsertSorted(x: string, s: seq<string>)
    requires Sorted(s)
    ensures Sorted(Insert(x, s))
  {
    if s == [] {
    } else if AtMost(x, s[0]) {
      forall j | 0 <= j < |s| ensures AtMost(x, s[j]) {
        if j > 0 { AtMostTransitive(x, s[0], s[j]); }
      }
    } else {
      BelowTotal(x, s[0]);
      var t := Insert(x, s[1..]);
      InsertSorted(x, s[1..]);
      InsertPermutes(x, s[1..]);
      assert s == [s[0]] + s[1..];
      forall y | y in t ensures AtMost(s[0], y) {
        assert y in multiset(t);
        if y != x {
          assert y in multiset(s[1..]);
          var j :| 0 <= j < |s[1..]| && s[1..][j] == y;
          assert s[j + 1] == y;
        }
      }
    }
  }

  /** Sorting yields an ascending permutation of its input. */
  lemma {:induction false} SortSpec(s: seq<string>)
    ensures Sorted(Sort(s))
    ensures multiset(Sort(s)) == multiset(s)
  {
    if s != [] {
      SortSpec(s[1..]);
      InsertSorted(s[0], Sort(s[1..]));
      InsertPermutes(s[0], Sort(s[1..]));
      assert s == [s[0]] + s[1..];
    }
  }

  /** An order, not a choice: two sorted arrangements of the same names are equal. */
  lemma {:induction false} SortedUnique(a: seq<string>, b: seq<string>)
    requires Sorted(a) && Sorted(b) && multiset(a) == multiset(b)
    ensures a == b
  {
    if a != [] {
      assert |b| == |a| by { assert |multiset(b)| == |multiset(a)|; }
      assert a[0] in multiset(b) && b[0] in multiset(a);
      SortedHeadLeast(a, b[0]);
      SortedHeadLeast(b, a[0]);
      AtMostAntisymmetric(a[0], b[0]);
      TailMultiset(a);
      TailMultiset(b);
      SortedUnique(a[1..], b[1..]);
    }
  }

  lemma SortedHeadLeast(a: seq<string>, x: string)
    requires Sorted(a) && x in multiset(a)
    ensures AtMost(a[0], x)
  {
    var j :| 0 <= j < |a| && a[j] == x;
    if j > 0 { assert AtMost(a[0], a[j]); }
  }

  lemma TailMultiset(a: seq<string>)
    requires a != []
    ensures multiset(a[1..]) == multiset(a) - multiset{a[0]}
  {
    assert a == [a[0]] + a[1..];
  }

  /** Lines 23-24 of convert.py and 204-205 of gui.py: filter, then sort ascending. */
  function SelectFiles(entries: seq<string>): seq<string> {
    Sort(PngEntries(entries))
  }

  /**
   * The selected frames are exactly the ".png" entries, each as often as the
   * listing holds it, in ascending order; and no other arrangement has these
   * two properties.
   */
  lemma SelectFilesSpec(entries: seq<string>)
    ensures forall x :: x in SelectFiles(entries) <==> x in entries && IsPng(x)
    ensures forall x :: multiset(SelectFiles(entries))[x] == if IsPng(x) then multiset(entries)[x] else 0
    ensures Sorted(SelectFiles(entries))
    ensures forall s :: Sorted(s) && multiset(s) == multiset(SelectFiles(entries)) ==> s == SelectFiles(entries)
  {
    var r := SelectFiles(entries);
    SortSpec(PngEntries(entries));
    forall x ensures x in r <==> x in entries && IsPng(x) {
      assert x in r <==> x in multiset(r);
      assert x in entries <==> x in multiset(entries);
    }
    forall s | Sorted(s) && multiset(s) == multiset(r) ensures s == r {
      SortedUnique(s, r);
    }
  }

  /** The first selected file is the least ".png" entry of the listing. */
  lemma FirstSelectedIsLeast(entries: seq<string>)
    requires SelectFiles(entries) != []
    ensures IsPng(SelectFiles(entries)[0]) && SelectFiles(entries)[0] in entries
    ensures forall x :: x in entries && IsPng(x) ==> AtMost(SelectFiles(entries)[0], x)
  {
    var r := SelectFiles(entries);
    SelectFilesSpec(entries);
    forall x | x in entries && IsPng(x) ensures AtMost(r[0], x) {
      var k :| 0 <= k < |r| && r[k] == x;
      if k > 0 { assert AtMost(r[0], r[k]); }
    }
  }
}
