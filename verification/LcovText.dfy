/** The text of a report, line by line, said over the counts alone. */
module LcovText {
  import opened Wrappers
  import Text
  import opened Lcov
  import opened LcovOrder

  // ----- order --------------------------------------------------------------------------------

  /** Lexicographic order by code points: a proper prefix, or smaller where they first differ. */
  ghost predicate Smaller(a: string, b: string) {
    (|a| < |b| && a == b[..|a|]) || exists k :: 0 <= k && Differ(a, b, k)
  }

  predicate Differ(a: string, b: string, k: nat) {
    k < |a| && k < |b| && a[..k] == b[..k] && a[k] < b[k]
  }

  lemma {:induction false} BeforeIff(a: string, b: string)
    ensures Before(a, b) <==> Smaller(a, b)
  {
    if a != "" && b != "" {
      if a[0] == b[0] {
        BeforeIff(a[1..], b[1..]);
        SmallerTail(a, b);
      } else {
        if Smaller(a, b) { FirstDiffers(a, b); }
        if a[0] < b[0] { assert a[..0] == b[..0] && Differ(a, b, 0); }
      }
    }
  }

  lemma FirstDiffers(a: string, b: string)
    requires a != "" && b != "" && a[0] != b[0] && Smaller(a, b)
    ensures a[0] < b[0]
  {
    SameStart(a, b, |a|);
    var k :| 0 <= k && Differ(a, b, k);
    SameStart(a, b, k);
  }

  lemma SameStart(a: string, b: string, k: nat)
    ensures 0 < k <= |a| && k <= |b| && a[..k] == b[..k] ==> a[0] == b[0]
  {
    if 0 < k <= |a| && k <= |b| && a[..k] == b[..k] { assert a[..k][0] == b[..k][0]; }
  }

  lemma SmallerTail(a: string, b: string)
    requires a != "" && b != "" && a[0] == b[0]
    ensures Smaller(a, b) <==> Smaller(a[1..], b[1..])
  {
    hide Differ;
    PrefixTail(a, b);
    forall k | 0 <= k ensures Differ(a, b, k + 1) <==> Differ(a[1..], b[1..], k) { DifferTail(a, b, k); }
    if k :| 0 <= k && Differ(a, b, k) {
      assert k > 0 by { NotFirst(a, b); }
      assert Differ(a[1..], b[1..], k - 1);
    }
    if k :| 0 <= k && Differ(a[1..], b[1..], k) { assert Differ(a, b, k + 1); }
  }

  lemma NotFirst(a: string, b: string)
    requires a != "" && b != "" && a[0] == b[0]
    ensures !Differ(a, b, 0)
  {
  }

  lemma DifferTail(a: string, b: string, k: nat)
    requires a != "" && b != "" && a[0] == b[0]
    ensures Differ(a, b, k + 1) <==> Differ(a[1..], b[1..], k)
  {
    if k + 1 < |a| && k + 1 < |b| {
      var c, d := a[1..], b[1..];
      assert a[..k + 1] == [a[0]] + c[..k] && b[..k + 1] == [b[0]] + d[..k];
      assert c[..k] == a[..k + 1][1..] && d[..k] == b[..k + 1][1..];
    }
  }

  lemma PrefixTail(a: string, b: string)
    requires a != "" && b != "" && a[0] == b[0]
    ensures |a| < |b| && a == b[..|a|] <==> |a[1..]| < |b[1..]| && a[1..] == b[1..][..|a[1..]|]
  {
    if |a| < |b| {
      assert a == [a[0]] + a[1..] && b[..|a|] == [b[0]] + b[1..][..|a| - 1];
      assert b[..|a|][1..] == b[1..][..|a| - 1];
    }
  }

  /** The keys in ascending order. */
  ghost predicate Ascending(numbers: seq<int>, lines: map<int, int>) {
    && (forall i, j :: 0 <= i < j < |numbers| ==> numbers[i] < numbers[j])
    && forall n :: n in numbers <==> n in lines
  }

  ghost predicate AscendingPaths(paths: seq<string>, files: Files) {
    && (forall i, j :: 0 <= i < j < |paths| ==> Smaller(paths[i], paths[j]))
    && forall p :: p in paths <==> p in files
  }

  // ----- one record ---------------------------------------------------------------------------

  /** The lines that were executed. */
  ghost function Executed(lines: map<int, int>): set<int> {
    set n | n in lines && lines[n] != 0
  }

  /** The lines of a file's record: its path, a line for every number in ascending order with its count,
      how many there are, and how many were executed. */
  ghost predicate Block(path: string, lines: map<int, int>, numbers: seq<int>, out: seq<string>) {
    var n := |lines|;
    && Ascending(numbers, lines) && |numbers| == n && |out| == n + 5
    && out[0] == "TN:" && out[1] == "SF:" + path
    && (forall k :: 0 <= k < n ==> numbers[k] in lines && out[2 + k] == "DA:" + Signed(numbers[k]) + "," + Signed(lines[numbers[k]]))
    && out[n + 2] == "LF:" + Text.Decimal(n)
    && out[n + 3] == "LH:" + Text.Decimal(|Executed(lines)|)
    && out[n + 4] == "end_of_record"
  }

  function NumberSet(es: seq<(int, int)>): set<int> {
    if es == [] then {} else NumberSet(es[..|es| - 1]) + {es[|es| - 1].0}
  }

  function ExecutedSet(es: seq<(int, int)>): set<int> {
    if es == [] then {} else ExecutedSet(es[..|es| - 1]) + if es[|es| - 1].1 != 0 then {es[|es| - 1].0} else {}
  }

  predicate Once(es: seq<(int, int)>) {
    forall i, j :: 0 <= i < j < |es| ==> es[i].0 != es[j].0
  }

  lemma {:induction false} SetsAre(es: seq<(int, int)>)
    ensures forall n :: n in NumberSet(es) <==> exists i :: 0 <= i < |es| && es[i].0 == n
    ensures forall n :: n in ExecutedSet(es) <==> exists i :: 0 <= i < |es| && es[i].0 == n && es[i].1 != 0
  {
    if es != [] {
      var m := |es| - 1;
      SetsAre(es[..m]);
      assert forall i :: 0 <= i < m ==> es[..m][i] == es[i];
      forall n ensures n in NumberSet(es) <==> exists i :: 0 <= i < |es| && es[i].0 == n {
        if n in NumberSet(es[..m]) {
          var i :| 0 <= i < m && es[..m][i].0 == n;
          assert es[i].0 == n;
        }
      }
      forall n ensures n in ExecutedSet(es) <==> exists i :: 0 <= i < |es| && es[i].0 == n && es[i].1 != 0 {
        if n in ExecutedSet(es[..m]) {
          var i :| 0 <= i < m && es[..m][i].0 == n && es[..m][i].1 != 0;
          assert es[i].0 == n;
        }
      }
    }
  }

  lemma {:induction false} SetSizes(es: seq<(int, int)>)
    requires Once(es)
    ensures |NumberSet(es)| == |es| && |ExecutedSet(es)| == Covered(es)
  {
    if es != [] {
      var m := |es| - 1;
      SetSizes(es[..m]);
      NewNumber(es);
    }
  }

  lemma NewNumber(es: seq<(int, int)>)
    requires es != [] && Once(es)
    ensures es[|es| - 1].0 !in NumberSet(es[..|es| - 1]) && es[|es| - 1].0 !in ExecutedSet(es[..|es| - 1])
  {
    SetsAre(es[..|es| - 1]);
  }

  /** Counted over a listing or over the lines themselves, it is the same. */
  lemma CountsAre(es: seq<(int, int)>, lines: map<int, int>)
    requires ListsLines(es, lines)
    ensures |es| == |lines| && Covered(es) == |Executed(lines)|
  {
    SetsAre(es);
    SetSizes(es);
    hide NumberSet, ExecutedSet, Covered;
    forall n ensures n in NumberSet(es) <==> n in lines {
      if n in lines { var i :| 0 <= i < |es| && es[i].0 == n; }
    }
    assert NumberSet(es) == lines.Keys;
    forall n ensures n in ExecutedSet(es) <==> n in Executed(lines) {
      if n in Executed(lines) {
        var i :| 0 <= i < |es| && es[i].0 == n;
        assert es[i].1 != 0;
      }
    }
    assert ExecutedSet(es) == Executed(lines);
  }

  lemma {:induction false} EntryLinesAt(es: seq<(int, int)>)
    ensures |EntryLines(es)| == |es| && forall k :: 0 <= k < |es| ==> EntryLines(es)[k] == "DA:" + Signed(es[k].0) + "," + Signed(es[k].1)
  {
    hide Signed;
    if es != [] { EntryLinesAt(es[..|es| - 1]); }
  }

  lemma RecordIs(r: Record, lines: map<int, int>)
    requires ListsLines(r.lines, lines) && Ordered(Numbers(r.lines), Below)
    ensures Block(r.path, lines, Numbers(r.lines), RecordLines(r))
  {
    hide Signed, Text.Decimal, Covered, EntryLines, Executed;
    var es := r.lines;
    CountsAre(es, lines);
    EntryLinesAt(es);
    assert Ascending(Numbers(es), lines) by {
      forall n ensures n in Numbers(es) <==> n in lines { NumbersAre(es, lines, n); }
    }
  }

  // ----- the whole text -----------------------------------------------------------------------

  /** Every line, each ended by a newline. */
  ghost predicate EndedLines(text: string, lines: seq<string>) {
    if lines == [] then text == ""
    else |lines[0]| < |text| && text[..|lines[0]|] == lines[0] && text[|lines[0]|] == '\n' && EndedLines(text[|lines[0]| + 1..], lines[1..])
  }

  lemma {:induction false} UnlinesEnded(lines: seq<string>)
    ensures EndedLines(Unlines(lines), lines)
  {
    if lines != [] {
      UnlinesEnded(lines[1..]);
      var text, rest := Unlines(lines), Unlines(lines[1..]);
      assert text == lines[0] + "\n" + rest && text[|lines[0]| + 1..] == rest && text[..|lines[0]|] == lines[0];
    }
  }

  function Flat(blocks: seq<seq<string>>): seq<string> {
    if blocks == [] then [] else Flat(blocks[..|blocks| - 1]) + blocks[|blocks| - 1]
  }

  function Blocks(recs: seq<Record>): (r: seq<seq<string>>)
    ensures |r| == |recs| && forall i :: 0 <= i < |recs| ==> r[i] == RecordLines(recs[i])
  {
    seq(|recs|, (i: nat) requires i < |recs| => RecordLines(recs[i]))
  }

  lemma {:induction false} ReportFlat(recs: seq<Record>)
    ensures ReportLines(recs) == Flat(Blocks(recs))
  {
    hide RecordLines;
    if recs != [] {
      var n := |recs| - 1;
      ReportFlat(recs[..n]);
      assert Blocks(recs)[..n] == Blocks(recs[..n]);
    }
  }

  /** The `i`-th block is the record of the `i`-th path. */
  ghost predicate BlocksOf(files: Files, paths: seq<string>, blocks: seq<seq<string>>) {
    && |paths| == |blocks|
    && forall i :: 0 <= i < |paths| ==> paths[i] in files && IsBlock(paths[i], files[paths[i]], blocks[i])
  }

  ghost predicate IsBlock(path: string, lines: map<int, int>, out: seq<string>) {
    exists numbers :: Block(path, lines, numbers, out)
  }

  /** A text that formats some files is, line by line, one record for each of them in ascending order of
      path. */
  lemma TextIs(text: string, files: Files) returns (paths: seq<string>, blocks: seq<seq<string>>)
    requires Formats(text, files)
    ensures AscendingPaths(paths, files) && BlocksOf(files, paths, blocks) && EndedLines(text, Flat(blocks))
  {
    hide Lists, InOrder, Report, Block, Flat, EndedLines;
    var recs :| Lists(recs, files) && InOrder(recs) && text == Report(recs);
    paths, blocks := Paths(recs), Blocks(recs);
    OrderedPaths(recs, files);
    AllBlocks(recs, files);
    ReportFlat(recs);
    assert Report(recs) == Unlines(ReportLines(recs)) by { ReportIs(recs); }
    UnlinesEnded(Flat(blocks));
  }

  lemma ReportIs(recs: seq<Record>)
    ensures Report(recs) == Unlines(ReportLines(recs))
  {
  }

  lemma OrderedPaths(recs: seq<Record>, files: Files)
    requires Lists(recs, files) && InOrder(recs)
    ensures AscendingPaths(Paths(recs), files)
  {
    hide Before, Smaller, ListsLines, Lists;
    var paths := Paths(recs);
    forall i, j | 0 <= i < j < |paths| ensures Smaller(paths[i], paths[j]) {
      assert Before(paths[i], paths[j]);
      BeforeIff(paths[i], paths[j]);
    }
    forall p ensures p in paths <==> p in files { PathsAre(recs, files, p); }
  }

  lemma RecordIsBlock(r: Record, lines: map<int, int>)
    requires ListsLines(r.lines, lines) && Ordered(Numbers(r.lines), Below)
    ensures IsBlock(r.path, lines, RecordLines(r))
  {
    hide Block, ListsLines, RecordLines;
    RecordIs(r, lines);
  }

  lemma AllBlocks(recs: seq<Record>, files: Files)
    requires Lists(recs, files) && InOrder(recs)
    ensures BlocksOf(files, Paths(recs), Blocks(recs))
  {
    hide ListsLines, RecordLines, IsBlock;
    forall i | 0 <= i < |recs|
      ensures Paths(recs)[i] in files && IsBlock(Paths(recs)[i], files[Paths(recs)[i]], Blocks(recs)[i])
    {
      RecordIsBlock(recs[i], files[recs[i].path]);
    }
  }
}
