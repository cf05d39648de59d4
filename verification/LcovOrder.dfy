/** LCOV reports are written in order of path and line, so their text depends on nothing but the
    counts. */
module LcovOrder {
  import opened Lcov
  import opened LcovTheorems

  // ----- orders -------------------------------------------------------------------------------

  ghost predicate StrictTotal<T(!new)>(less: (T, T) -> bool) {
    && (forall x :: !less(x, x))
    && (forall x, y :: less(x, y) || less(y, x) || x == y)
    && (forall x, y, z :: less(x, y) && less(y, z) ==> less(x, z))
  }

  ghost predicate Ordered<T>(xs: seq<T>, less: (T, T) -> bool) {
    forall i, j :: 0 <= i < j < |xs| ==> less(xs[i], xs[j])
  }

  /** A collection has one ordered listing. */
  lemma {:induction false} OrderedUnique<T(!new)>(xs: seq<T>, ys: seq<T>, less: (T, T) -> bool)
    requires StrictTotal(less) && Ordered(xs, less) && Ordered(ys, less)
    requires forall x :: x in xs <==> x in ys
    ensures xs == ys
  {
    assert xs != [] ==> xs[0] in ys;
    assert ys != [] ==> ys[0] in xs;
    if xs != [] {
      SameFirst(xs, ys, less);
      forall x ensures x in xs[1..] <==> x in ys[1..] {
        TailHas(xs, x, less);
        TailHas(ys, x, less);
      }
      OrderedUnique(xs[1..], ys[1..], less);
      assert xs == [xs[0]] + xs[1..] && ys == [ys[0]] + ys[1..];
    }
  }

  lemma SameFirst<T(!new)>(xs: seq<T>, ys: seq<T>, less: (T, T) -> bool)
    requires StrictTotal(less) && Ordered(xs, less) && Ordered(ys, less) && xs != [] && ys != []
    requires xs[0] in ys && ys[0] in xs
    ensures xs[0] == ys[0]
  {
    FirstLeast(xs, ys[0], less);
    FirstLeast(ys, xs[0], less);
  }

  lemma FirstLeast<T>(xs: seq<T>, x: T, less: (T, T) -> bool)
    requires Ordered(xs, less) && x in xs
    ensures x == xs[0] || less(xs[0], x)
  {
  }

  lemma TailHas<T(!new)>(xs: seq<T>, x: T, less: (T, T) -> bool)
    requires StrictTotal(less) && Ordered(xs, less) && xs != []
    ensures x in xs[1..] <==> x in xs && x != xs[0]
  {
    if x in xs && x != xs[0] {
      var i :| 0 <= i < |xs| && xs[i] == x;
      assert xs[1..][i - 1] == x;
    }
  }

  method Least<T(!new, ==)>(s: set<T>, less: (T, T) -> bool) returns (m: T)
    requires StrictTotal(less) && s != {}
    ensures m in s && forall y :: y in s && y != m ==> less(m, y)
  {
    m :| m in s;
    var todo := s - {m};
    while todo != {}
      invariant todo <= s && m in s
      invariant forall y :: y in s && y !in todo && y != m ==> less(m, y)
      decreases todo
    {
      var x :| x in todo;
      if less(x, m) { m := x; }
      todo := todo - {x};
    }
  }

  /** Python's `sorted` on the keys of a dictionary. */
  method Sort<T(!new, ==)>(s: set<T>, less: (T, T) -> bool) returns (r: seq<T>)
    requires StrictTotal(less)
    ensures Ordered(r, less) && forall x :: x in r <==> x in s
  {
    r := [];
    var left := s;
    while left != {}
      invariant left <= s && Ordered(r, less)
      invariant forall x :: x in s <==> x in r || x in left
      invariant forall i, y :: 0 <= i < |r| && y in left ==> less(r[i], y)
      decreases left
    {
      var m := Least(left, less);
      r := r + [m];
      left := left - {m};
    }
  }

  // ----- the order of numbers and of strings --------------------------------------------------

  const Below: (int, int) -> bool := (a: int, b: int) => a < b

  /** The order of strings in Python, by code points. */
  predicate Before(a: string, b: string) {
    b != "" && (a == "" || a[0] < b[0] || (a[0] == b[0] && Before(a[1..], b[1..])))
  }

  lemma {:induction false} BeforeTotal(a: string, b: string)
    ensures !Before(a, a) && (Before(a, b) || Before(b, a) || a == b)
  {
    if a != "" {
      BeforeTotal(a[1..], if b == "" then "" else b[1..]);
      if b != "" && a[0] == b[0] && a[1..] == b[1..] { assert a == [a[0]] + a[1..] == b; }
    }
  }

  lemma {:induction false} BeforeTransitive(a: string, b: string, c: string)
    requires Before(a, b) && Before(b, c)
    ensures Before(a, c)
  {
    if a != "" && a[0] == b[0] == c[0] { BeforeTransitive(a[1..], b[1..], c[1..]); }
  }

  lemma BeforeStrict()
    ensures StrictTotal(Before)
  {
    forall x: string, y: string ensures !Before(x, x) && (Before(x, y) || Before(y, x) || x == y) { BeforeTotal(x, y); }
    forall x: string, y: string, z: string | Before(x, y) && Before(y, z) ensures Before(x, z) { BeforeTransitive(x, y, z); }
  }

  // ----- the text of a report -----------------------------------------------------------------

  function Paths(recs: seq<Record>): (r: seq<string>)
    ensures |r| == |recs| && forall i :: 0 <= i < |recs| ==> r[i] == recs[i].path
  {
    seq(|recs|, (i: nat) requires i < |recs| => recs[i].path)
  }

  function Numbers(es: seq<(int, int)>): (r: seq<int>)
    ensures |r| == |es| && forall i :: 0 <= i < |es| ==> r[i] == es[i].0
  {
    seq(|es|, (i: nat) requires i < |es| => es[i].0)
  }

  ghost predicate InOrder(recs: seq<Record>) {
    Ordered(Paths(recs), Before) && forall i :: 0 <= i < |recs| ==> Ordered(Numbers(recs[i].lines), Below)
  }

  /** `text` is the report of these files: each of them, in order. */
  ghost predicate Formats(text: string, files: Files) {
    exists recs :: Lists(recs, files) && InOrder(recs) && text == Report(recs)
  }

  lemma LinesUnique(a: seq<(int, int)>, b: seq<(int, int)>, lines: map<int, int>)
    requires ListsLines(a, lines) && ListsLines(b, lines) && Ordered(Numbers(a), Below) && Ordered(Numbers(b), Below)
    ensures a == b
  {
    forall n ensures n in Numbers(a) <==> n in lines { NumbersAre(a, lines, n); }
    forall n ensures n in Numbers(b) <==> n in lines { NumbersAre(b, lines, n); }
    OrderedUnique(Numbers(a), Numbers(b), Below);
    assert |a| == |Numbers(a)| == |b|;
    forall i | 0 <= i < |a| ensures a[i] == b[i] {
      assert Numbers(a)[i] == Numbers(b)[i];
    }
  }

  lemma NumbersAre(es: seq<(int, int)>, lines: map<int, int>, n: int)
    requires ListsLines(es, lines)
    ensures n in Numbers(es) <==> n in lines
  {
    if n in lines {
      var i :| 0 <= i < |es| && es[i].0 == n;
      assert Numbers(es)[i] == n;
    }
  }

  lemma PathsAre(recs: seq<Record>, files: Files, p: string)
    requires Lists(recs, files)
    ensures p in Paths(recs) <==> p in files
  {
    hide ListsLines;
    if p in files {
      var i :| 0 <= i < |recs| && recs[i].path == p;
      assert Paths(recs)[i] == p;
    }
  }

  /** Two listings of the same files in order are the same. */
  lemma ListingUnique(a: seq<Record>, b: seq<Record>, files: Files)
    requires Lists(a, files) && Lists(b, files) && InOrder(a) && InOrder(b)
    ensures a == b
  {
    hide ListsLines;
    forall p ensures p in Paths(a) <==> p in files { PathsAre(a, files, p); }
    forall p ensures p in Paths(b) <==> p in files { PathsAre(b, files, p); }
    BeforeStrict();
    OrderedUnique(Paths(a), Paths(b), Before);
    assert |a| == |Paths(a)| == |b|;
    forall i | 0 <= i < |a| ensures a[i] == b[i] {
      assert a[i].path == Paths(a)[i] == b[i].path;
      LinesUnique(a[i].lines, b[i].lines, files[a[i].path]);
    }
  }

  /** The text of a report is a function of its counts. */
  lemma TextUnique(s: string, t: string, files: Files)
    requires Formats(s, files) && Formats(t, files)
    ensures s == t
  {
    hide Lists, InOrder, Report;
    var a :| Lists(a, files) && InOrder(a) && s == Report(a);
    var b :| Lists(b, files) && InOrder(b) && t == Report(b);
    ListingUnique(a, b, files);
  }

  /** The entries of one file, ascending. */
  method ListLines(lines: map<int, int>) returns (es: seq<(int, int)>)
    ensures ListsLines(es, lines) && Ordered(Numbers(es), Below)
  {
    var numbers := Sort(lines.Keys, Below);
    es := seq(|numbers|, (i: nat) requires i < |numbers| => (numbers[i], lines[numbers[i]]));
    assert Numbers(es) == numbers;
    forall n ensures n in lines <==> exists i :: 0 <= i < |es| && es[i].0 == n {
      if n in lines {
        assert n in numbers;
        var i :| 0 <= i < |numbers| && numbers[i] == n;
        assert es[i].0 == n;
      }
    }
  }

  /** The files in order of path, their lines ascending. */
  method ListFiles(files: Files) returns (recs: seq<Record>)
    ensures Lists(recs, files) && InOrder(recs)
  {
    hide ListsLines, Before;
    BeforeStrict();
    var paths := Sort(files.Keys, Before);
    recs := [];
    for i := 0 to |paths|
      invariant |recs| == i && forall k :: 0 <= k < i ==> recs[k].path == paths[k]
      invariant forall k :: 0 <= k < i ==> ListsLines(recs[k].lines, files[paths[k]]) && Ordered(Numbers(recs[k].lines), Below)
    {
      assert paths[i] in paths;
      var es := ListLines(files[paths[i]]);
      recs := recs + [Record(paths[i], es)];
    }
    assert Paths(recs) == paths;
    ListsAll(recs, files);
  }

  lemma ListsAll(recs: seq<Record>, files: Files)
    requires Ordered(Paths(recs), Before) && forall p :: p in Paths(recs) <==> p in files
    requires forall k :: 0 <= k < |recs| ==> ListsLines(recs[k].lines, files[Paths(recs)[k]])
    ensures Lists(recs, files)
  {
    hide ListsLines, Before;
    BeforeStrict();
    var paths := Paths(recs);
    forall i, j | 0 <= i < j < |recs| ensures recs[i].path != recs[j].path {
      assert Before(paths[i], paths[j]);
    }
    forall p ensures p in files <==> exists i :: 0 <= i < |recs| && recs[i].path == p {
      assert p in paths <==> p in files;
      if i :| 0 <= i < |recs| && recs[i].path == p { assert paths[i] == p; }
    }
  }

  /** `format_lcov`: every file in order of path, its lines in ascending order. */
  method FormatLcov(files: Files) returns (text: string)
    ensures Formats(text, files)
  {
    hide Lists, InOrder, Report;
    var recs := ListFiles(files);
    text := FormatRecords(recs);
  }

  // ----- merged reports -----------------------------------------------------------------------

  /** `merge_lcov`: the text written and the number of source files. */
  method MergeTexts(texts: seq<string>) returns (text: string, n: nat)
    ensures Formats(text, Total(ReadAll(texts))) && n == |Total(ReadAll(texts))|
  {
    var merged := MergeLcov(texts);
    text := FormatLcov(merged);
    n := |merged|;
  }

  /** The merged report is the same text whatever the order of its inputs. */
  lemma MergedTextSame(a: seq<string>, b: seq<string>, s: string, t: string)
    requires multiset(ReadAll(a)) == multiset(ReadAll(b))
    requires Formats(s, Total(ReadAll(a))) && Formats(t, Total(ReadAll(b)))
    ensures s == t
  {
    hide Formats, Total, ReadAll;
    MergeOrder(ReadAll(a), ReadAll(b));
    TextUnique(s, t, Total(ReadAll(a)));
  }

  /** Merging reports written from `fs` gives the report written from their sum. */
  lemma MergedTextIs(fs: seq<Files>, texts: seq<string>, merged: string, direct: string)
    requires |texts| == |fs| && forall i :: 0 <= i < |fs| ==> Formats(texts[i], fs[i])
    requires forall i, p :: 0 <= i < |fs| && p in fs[i] ==> Safe(p)
    requires Formats(merged, Total(ReadAll(texts))) && Formats(direct, Total(fs))
    ensures merged == direct
  {
    hide Total, Safe;
    forall i | 0 <= i < |fs| ensures ReadAll(texts)[i] == fs[i] { ReadFormatted(texts[i], fs[i]); }
    assert ReadAll(texts) == fs;
    hide Formats;
    TextUnique(merged, direct, Total(fs));
  }

  lemma ReadFormatted(text: string, files: Files)
    requires Formats(text, files) && forall p :: p in files ==> Safe(p)
    ensures Read(text).out == files
  {
    hide Safe, Lists, Report, InOrder, Read;
    var recs :| Lists(recs, files) && InOrder(recs) && text == Report(recs);
    RoundTripIff(recs, files);
  }
}
