/** What the LCOV reader, writer and merge promise together: reading inverts writing exactly for
    paths that fit on a line, and counts add up whatever the order. */
module LcovTheorems {
  import opened Wrappers
  import opened Lcov
  import Text

  // ----- numbers and lines --------------------------------------------------------------------

  predicate Solid(s: string) {
    forall i :: 0 <= i < |s| ==> !Space(s[i])
  }

  lemma TrimSolid(s: string)
    requires s == "" || (!Space(s[0]) && !Space(s[|s| - 1]))
    ensures Text.Trim(s, Space) == s
  {
  }

  lemma {:induction false} UngroupedDigits(s: string)
    requires forall i :: 0 <= i < |s| ==> Text.IsDigit(s[i])
    ensures Ungrouped(s) == s
  {
    if s != "" {
      UngroupedDigits(s[1..]);
      assert Text.IsDigit(s[0]) && [s[0]] + s[1..] == s;
    }
  }

  /** Reading a number as Python prints it. */
  lemma IntRoundTrip(n: int)
    ensures ParseInt(Signed(n)) == Some(n)
    ensures Solid(Signed(n)) && ',' !in Signed(n) && Signed(n) != ""
  {
    hide Text.Trim, Text.Number, Ungrouped;
    var s := Signed(n);
    var digits := Text.Decimal(if n < 0 then -n else n);
    assert forall i :: 0 <= i < |digits| ==> Text.IsDigit(digits[i]);
    assert n < 0 ==> s[1..] == digits;
    assert forall i :: 0 <= i < |s| ==> s[i] == '-' || Text.IsDigit(s[i]);
    assert s[0] == '-' <==> n < 0 by { assert n >= 0 ==> Text.IsDigit(digits[0]); }
    TrimSolid(s);
    UngroupedDigits(digits);
    Text.NumberDecimal(if n < 0 then -n else n);
  }

  lemma WordLenAt(s: string, c: char, rest: string, ws: char -> bool)
    requires ws(c) && forall i :: 0 <= i < |s| ==> !ws(s[i])
    ensures Text.WordLen(s + [c] + rest, ws) == |s|
  {
    var t := s + [c] + rest;
    var n := Text.WordLen(t, ws);
    assert t[|s|] == c;
    assert forall i :: 0 <= i < |s| ==> t[i] == s[i];
  }

  lemma EntryRead(e: (int, int))
    ensures Entry(Signed(e.0) + "," + Signed(e.1)) == Some(e)
  {
    hide ParseInt, Signed;
    var a, b := Signed(e.0), Signed(e.1);
    IntRoundTrip(e.0);
    IntRoundTrip(e.1);
    WordLenAt(a, ',', b, Comma);
    var s := a + "," + b;
    assert s[..|a|] == a && s[|a| + 1..] == b;
    assert Text.WordLen(b, Comma) == |b|;
    assert b[..|b|] == b;
  }

  predicate OneLine(s: string) {
    forall i :: 0 <= i < |s| ==> !LineBreak(s[i])
  }

  lemma LinesCons(line: string, rest: string)
    requires OneLine(line)
    ensures Lines(line + "\n" + rest) == [line] + Lines(rest)
  {
    var text := line + "\n" + rest;
    WordLenAt(line, '\n', rest, LineBreak);
    assert text[..|line|] == line && text[|line|] == '\n' && text[|line| + 1..] == rest;
  }

  lemma {:induction false} LinesUnlines(lines: seq<string>)
    requires forall i :: 0 <= i < |lines| ==> OneLine(lines[i])
    ensures Lines(Unlines(lines)) == lines
  {
    if lines != [] {
      LinesUnlines(lines[1..]);
      LinesCons(lines[0], Unlines(lines[1..]));
    }
  }

  // ----- reading a written report -------------------------------------------------------------

  /** A path that survives: no line break in it, no blank at its end. */
  predicate Safe(path: string) {
    OneLine(path) && (path == "" || !Space(path[|path| - 1]))
  }

  lemma {:induction false} ReadLinesAppend(r: Reader, a: seq<string>, b: seq<string>)
    requires r.Valid()
    ensures ReadLines(r, a + b) == ReadLines(ReadLines(r, a), b)
    decreases |b|
  {
    hide ReadLine;
    if b == [] {
      assert a + b == a;
    } else {
      assert (a + b)[..|a + b| - 1] == a + b[..|b| - 1];
      ReadLinesAppend(r, a, b[..|b| - 1]);
    }
  }

  lemma ReadEntryLine(r: Reader, e: (int, int))
    requires r.Valid() && r.current.Some?
    ensures var path := r.current.value;
            ReadLine(r, EntryLine(e)) ==
            Reader(r.out[path := r.out[path][e.0 := HitsOf(r.out[path], e.0) + e.1]], r.current)
    ensures OneLine(EntryLine(e))
  {
    hide Entry, Text.Trim, Signed;
    var a, b, s := Signed(e.0), Signed(e.1), EntryLine(e);
    IntRoundTrip(e.0);
    IntRoundTrip(e.1);
    EntryRead(e);
    assert forall i :: 0 <= i < |s| ==> s[i] in "DA:," || s[i] in a || s[i] in b;
    assert s[|s| - 1] == b[|b| - 1];
    TrimSolid(s);
    assert s[3..] == a + "," + b;
  }

  /** The table a record's entries build, later entries on top. */
  function Table(es: seq<(int, int)>): map<int, int> {
    if es == [] then map[] else Table(es[..|es| - 1])[es[|es| - 1].0 := es[|es| - 1].1]
  }

  lemma {:induction false} TableKeys(es: seq<(int, int)>, n: int)
    ensures n in Table(es) <==> exists i :: 0 <= i < |es| && es[i].0 == n
  {
    if es != [] {
      var m := |es| - 1;
      TableKeys(es[..m], n);
      assert forall i :: 0 <= i < m ==> es[..m][i] == es[i];
    }
  }

  lemma {:induction false} TableIs(es: seq<(int, int)>, lines: map<int, int>)
    requires ListsLines(es, lines)
    ensures Table(es) == lines
  {
    forall n ensures n in Table(es) <==> n in lines {
      TableKeys(es, n);
    }
    forall n | n in lines ensures Table(es)[n] == lines[n] {
      var i :| 0 <= i < |es| && es[i].0 == n;
      TableAt(es, i);
    }
  }

  lemma {:induction false} TableAt(es: seq<(int, int)>, i: nat)
    requires i < |es| && forall i, j :: 0 <= i < j < |es| ==> es[i].0 != es[j].0
    ensures es[i].0 in Table(es) && Table(es)[es[i].0] == es[i].1
  {
    var m := |es| - 1;
    if i < m {
      assert es[..m][i] == es[i];
      TableAt(es[..m], i);
    }
  }

  lemma {:induction false} ReadEntries(out: Files, path: string, es: seq<(int, int)>)
    requires path in out && out[path] == map[] && NumbersOnce(es)
    ensures ReadLines(Reader(out, Some(path)), EntryLines(es)) == Reader(out[path := Table(es)], Some(path))
  {
    hide ReadLine, OneLine, EntryLine, NumbersOnce, HitsOf;
    var r := Reader(out, Some(path));
    if es == [] {
      assert out[path := map[]] == out;
    } else {
      var m := |es| - 1;
      var front, e, before := es[..m], es[m], EntryLines(es[..m]);
      NewNumber(es);
      ReadEntries(out, path, front);
      var q := Reader(out[path := Table(front)], Some(path));
      ReadEntryLine(q, e);
      assert EntryLines(es)[..|before|] == before;
      assert q.out[path := Table(es)] == out[path := Table(es)];
    }
  }

  lemma {:induction false} EntriesOneLine(es: seq<(int, int)>)
    ensures forall i :: 0 <= i < |EntryLines(es)| ==> OneLine(EntryLines(es)[i])
  {
    hide ReadLine, OneLine, EntryLine;
    if es != [] {
      EntriesOneLine(es[..|es| - 1]);
      ReadEntryLine(Reader(map["" := map[]], Some("")), es[|es| - 1]);
    }
  }

  lemma NewNumber(es: seq<(int, int)>)
    requires es != [] && NumbersOnce(es)
    ensures var m := |es| - 1; NumbersOnce(es[..m]) && HitsOf(Table(es[..m]), es[m].0) == 0
  {
    var m := |es| - 1;
    TableKeys(es[..m], es[m].0);
    assert forall i :: 0 <= i < m ==> es[..m][i] == es[i];
  }

  lemma ReadOpening(out: Files, path: string)
    requires Safe(path)
    ensures ReadLines(Reader(out, None), Opening(path)) == Reader(out[path := LinesOf(out, path)], Some(path))
    ensures forall i :: 0 <= i < 2 ==> OneLine(Opening(path)[i])
  {
    hide Text.Trim, Entry, LinesOf;
    var r, s := Reader(out, None), "SF:" + path;
    assert Opening(path)[..1] == ["TN:"] && Opening(path)[..1][..0] == [];
    TrimSolid("TN:");
    assert ReadLine(r, "TN:") == r;
    assert ReadLines(r, Opening(path)[..1]) == r;
    assert s[|s| - 1] == if path == "" then ':' else path[|path| - 1];
    TrimSolid(s);
    assert s[3..] == path;
    assert forall i :: 3 <= i < |s| ==> s[i] == path[i - 3];
  }

  lemma ReadClosing(r: Reader, es: seq<(int, int)>)
    requires r.Valid()
    ensures ReadLines(r, Closing(es)) == r.(current := None)
    ensures forall i :: 0 <= i < 3 ==> OneLine(Closing(es)[i])
  {
    hide Text.Trim, Entry, Covered, Text.Decimal, LinesOf;
    var c := Closing(es);
    ReadCount(r, 'F', |es|);
    ReadCount(r, 'H', Covered(es));
    assert c[..2][..1][..0] == [] && c[..2][..1] == ["LF:" + Text.Decimal(|es|)] && c[..2][1] == "LH:" + Text.Decimal(Covered(es));
    assert ReadLines(r, c[..2][..1]) == r;
    assert ReadLines(r, c[..2]) == r;
    TrimSolid("end_of_record");
  }

  lemma ReadCount(r: Reader, c: char, n: nat)
    requires r.Valid() && (c == 'F' || c == 'H')
    ensures var s := ['L', c, ':'] + Text.Decimal(n); ReadLine(r, s) == r && OneLine(s)
  {
    hide Text.Trim, Entry, LinesOf;
    var d := Text.Decimal(n);
    var s := ['L', c, ':'] + d;
    assert forall i :: 3 <= i < |s| ==> s[i] == d[i - 3] && Text.IsDigit(d[i - 3]);
    TrimSolid(s);
    assert s[0] == 'L';
  }

  lemma ReadRecord(out: Files, rec: Record)
    requires Safe(rec.path) && rec.path !in out && NumbersOnce(rec.lines)
    ensures ReadLines(Reader(out, None), RecordLines(rec)) == Reader(out[rec.path := Table(rec.lines)], None)
  {
    hide ReadLines, OneLine, Opening, Closing, Safe, EntryLines, Table, NumbersOnce;
    var begun := out[rec.path := map[]];
    var a, b, c := Opening(rec.path), EntryLines(rec.lines), Closing(rec.lines);
    ReadOpening(out, rec.path);
    ReadEntries(begun, rec.path, rec.lines);
    assert begun[rec.path := Table(rec.lines)] == out[rec.path := Table(rec.lines)];
    var q := Reader(out[rec.path := Table(rec.lines)], Some(rec.path));
    ReadClosing(q, rec.lines);
    ReadLinesAppend(Reader(out, None), a + b, c);
    ReadLinesAppend(Reader(out, None), a, b);
  }

  lemma RecordOneLine(rec: Record)
    requires Safe(rec.path)
    ensures forall i :: 0 <= i < |RecordLines(rec)| ==> OneLine(RecordLines(rec)[i])
  {
    hide ReadLines, OneLine, Opening, Closing, Safe, EntryLines, Table;
    ReadOpening(map[], rec.path);
    EntriesOneLine(rec.lines);
    ReadClosing(EMPTY, rec.lines);
    OpeningSize(rec.path);
    ClosingSize(rec.lines);
  }

  lemma OpeningSize(path: string)
    ensures |Opening(path)| == 2
  {
  }

  lemma ClosingSize(es: seq<(int, int)>)
    ensures |Closing(es)| == 3
  {
  }

  /** The files a list of records holds. */
  function Gather(recs: seq<Record>): Files {
    if recs == [] then map[] else Gather(recs[..|recs| - 1])[recs[|recs| - 1].path := Table(recs[|recs| - 1].lines)]
  }

  lemma {:induction false} GatherKeys(recs: seq<Record>, p: string)
    ensures p in Gather(recs) <==> exists i :: 0 <= i < |recs| && recs[i].path == p
  {
    if recs != [] {
      var m := |recs| - 1;
      GatherKeys(recs[..m], p);
      assert forall i :: 0 <= i < m ==> recs[..m][i] == recs[i];
    }
  }

  lemma {:induction false} GatherAt(recs: seq<Record>, i: nat)
    requires i < |recs| && forall i, j :: 0 <= i < j < |recs| ==> recs[i].path != recs[j].path
    ensures recs[i].path in Gather(recs) && Gather(recs)[recs[i].path] == Table(recs[i].lines)
  {
    var m := |recs| - 1;
    if i < m {
      assert recs[..m][i] == recs[i];
      GatherAt(recs[..m], i);
    }
  }

  lemma GatherIs(recs: seq<Record>, files: Files)
    requires Lists(recs, files)
    ensures Gather(recs) == files
  {
    hide ListsLines, Table, Gather;
    forall p ensures p in Gather(recs) <==> p in files {
      GatherKeys(recs, p);
    }
    forall p | p in files ensures Gather(recs)[p] == files[p] {
      var i :| 0 <= i < |recs| && recs[i].path == p;
      GatherAt(recs, i);
      TableIs(recs[i].lines, files[p]);
    }
  }

  ghost predicate AllOnce(recs: seq<Record>) {
    && (forall i, j :: 0 <= i < j < |recs| ==> recs[i].path != recs[j].path)
    && forall i :: 0 <= i < |recs| ==> NumbersOnce(recs[i].lines)
  }

  ghost predicate NumbersOnce(es: seq<(int, int)>) {
    forall i, j :: 0 <= i < j < |es| ==> es[i].0 != es[j].0
  }

  lemma {:induction false} ReadReport(recs: seq<Record>)
    requires AllOnce(recs) && forall i :: 0 <= i < |recs| ==> Safe(recs[i].path)
    ensures ReadLines(EMPTY, ReportLines(recs)) == Reader(Gather(recs), None)
  {
    hide Table, RecordLines, OneLine, Safe, ReadLines, NumbersOnce;
    if recs == [] {
      assert ReadLines(EMPTY, []) == EMPTY by { NothingRead(); }
    } else {
      var m := |recs| - 1;
      var front, rec := recs[..m], recs[m];
      assert forall i :: 0 <= i < m ==> front[i] == recs[i];
      ReadReport(front);
      GatherKeys(front, rec.path);
      ReadRecord(Gather(front), rec);
      ReadLinesAppend(EMPTY, ReportLines(front), RecordLines(rec));
    }
  }

  lemma NothingRead()
    ensures ReadLines(EMPTY, []) == EMPTY
  {
  }

  lemma {:induction false} ReportOneLine(recs: seq<Record>)
    requires AllOnce(recs) && forall i :: 0 <= i < |recs| ==> Safe(recs[i].path)
    ensures forall i :: 0 <= i < |ReportLines(recs)| ==> OneLine(ReportLines(recs)[i])
  {
    hide RecordLines, OneLine, Safe, NumbersOnce;
    if recs != [] {
      var m := |recs| - 1;
      assert forall i :: 0 <= i < m ==> recs[..m][i] == recs[i];
      ReportOneLine(recs[..m]);
      RecordOneLine(recs[m]);
    }
  }

  lemma RoundTrip(recs: seq<Record>, files: Files)
    requires Lists(recs, files) && forall p :: p in files ==> Safe(p)
    ensures Read(Report(recs)) == Reader(files, None)
  {
    hide Safe, Gather, ReportLines, OneLine, Lines, Unlines, ReadLines;
    assert AllOnce(recs) by {
      forall i | 0 <= i < |recs| ensures NumbersOnce(recs[i].lines) {
        assert ListsLines(recs[i].lines, files[recs[i].path]);
      }
    }
    ReadReport(recs);
    ReportOneLine(recs);
    GatherIs(recs, files);
    LinesUnlines(ReportLines(recs));
  }

  lemma {:induction false} TrimStartSuffix(s: string)
    ensures var t := Text.TrimStart(s, Space); |t| <= |s| && s[|s| - |t|..] == t
  {
    if s != "" && Space(s[0]) { TrimStartSuffix(s[1..]); }
  }

  /** A path taken from a line fits on a line. */
  lemma PathSafe(raw: string)
    requires OneLine(raw)
    ensures var line := Text.Trim(raw, Space); "SF:" <= line ==> Safe(line[3..])
  {
    hide Space, LineBreak, Text.TrimStart, Text.TrimEnd;
    TrimStartSuffix(raw);
    var t, line := Text.TrimStart(raw, Space), Text.Trim(raw, Space);
    assert forall i :: 0 <= i < |t| ==> t[i] == raw[|raw| - |t| + i];
    assert OneLine(t) && line <= t;
    if "SF:" <= line {
      var path := line[3..];
      assert forall i :: 0 <= i < |path| ==> path[i] == t[3 + i];
    }
  }

  lemma {:induction false} LinesOneLine(text: string)
    ensures forall i :: 0 <= i < |Lines(text)| ==> OneLine(Lines(text)[i])
  {
    if text != "" {
      var n := Text.WordLen(text, LineBreak);
      if n < |text| {
        LinesOneLine(text[n + BreakLen(text, n)..]);
      }
    }
  }

  lemma {:induction false} ReadSafe(lines: seq<string>)
    requires forall i :: 0 <= i < |lines| ==> OneLine(lines[i])
    ensures forall p :: p in ReadLines(EMPTY, lines).out ==> Safe(p)
  {
    hide Safe, OneLine, Text.Trim, Entry;
    if lines != [] {
      ReadSafe(lines[..|lines| - 1]);
      PathSafe(lines[|lines| - 1]);
    }
  }

  /** Reading a written report gives back the files written, in whatever order they were written,
      if and only if every path is safe. */
  lemma RoundTripIff(recs: seq<Record>, files: Files)
    requires Lists(recs, files)
    ensures Read(Report(recs)).out == files <==> forall p :: p in files ==> Safe(p)
  {
    hide Safe, Lists, Report, OneLine, Lines, ReadLines;
    if forall p :: p in files ==> Safe(p) {
      RoundTrip(recs, files);
    }
    LinesOneLine(Report(recs));
    ReadSafe(Lines(Report(recs)));
  }

  // ----- concatenated reports -----------------------------------------------------------------

  lemma {:induction false} LinesAppend(a: string, b: string)
    requires a == "" || a[|a| - 1] == '\n'
    ensures Lines(a + b) == Lines(a) + Lines(b)
    decreases |a|
  {
    hide Lines, Text.WordLen, BreakLen, LineBreak;
    if a == "" {
      EmptyText();
      assert a + b == b && [] + Lines(b) == Lines(b);
    } else {
      var n := FirstBreak(a, b);
      var k := BreakLen(a, n);
      LinesStep(a, n, a[n + k..]);
      LinesStep(a + b, n, (a + b)[n + k..]);
      Split(a, b, n);
      Split(a, b, n + k);
      LinesAppend(a[n + k..], b);
      Regroup([a[..n]], Lines(a[n + k..]), Lines(b));
    }
  }

  lemma EmptyText()
    ensures Lines("") == []
  {
  }

  lemma Split<T>(a: seq<T>, b: seq<T>, n: nat)
    requires n <= |a|
    ensures (a + b)[..n] == a[..n] && (a + b)[n..] == a[n..] + b
    ensures n < |a| && a != [] ==> a[n..] != [] && a[n..][|a[n..]| - 1] == a[|a| - 1]
  {
  }

  lemma LinesStep(text: string, n: nat, rest: string)
    requires n < |text| && n == Text.WordLen(text, LineBreak) && rest == text[n + BreakLen(text, n)..]
    ensures Lines(text) == [text[..n]] + Lines(rest)
  {
    hide Text.WordLen, BreakLen, LineBreak;
  }

  lemma Regroup<T>(a: seq<T>, b: seq<T>, c: seq<T>)
    ensures a + b + c == a + (b + c)
  {
  }

  lemma FirstBreak(a: string, b: string) returns (n: nat)
    requires a != "" && a[|a| - 1] == '\n'
    ensures n < |a| && n == Text.WordLen(a, LineBreak) == Text.WordLen(a + b, LineBreak)
    ensures BreakLen(a + b, n) == BreakLen(a, n)
  {
    n := Text.WordLen(a, LineBreak);
    assert LineBreak(a[|a| - 1]);
    assert a[..n] + [a[n]] + (a[n + 1..] + b) == a + b;
    WordLenAt(a[..n], a[n], a[n + 1..] + b, LineBreak);
  }

  lemma SameFiles(a: Files, b: Files)
    requires a.Keys == b.Keys && forall p :: LinesOf(a, p) == LinesOf(b, p)
    ensures a == b
  {
    forall p | p in a ensures a[p] == b[p] {
      assert LinesOf(a, p) == LinesOf(b, p);
    }
  }

  lemma SumKeys(a: Files, b: Files)
    ensures Sum(a, b).Keys == a.Keys + b.Keys
  {
  }

  lemma SumLinesOf(a: Files, b: Files, p: string)
    ensures LinesOf(Sum(a, b), p) == SumLines(LinesOf(a, p), LinesOf(b, p))
  {
    assert SumLines(map[], map[]) == map[];
  }

  /** Replacing one file of the second summand replaces it in the sum. */
  lemma SumUpdate(base: Files, out: Files, path: string, lines: map<int, int>)
    ensures Sum(base, out)[path := SumLines(LinesOf(base, path), lines)] == Sum(base, out[path := lines])
  {
    hide Sum, SumLines;
    var x, y := Sum(base, out)[path := SumLines(LinesOf(base, path), lines)], Sum(base, out[path := lines]);
    SumKeys(base, out);
    SumKeys(base, out[path := lines]);
    forall p ensures LinesOf(x, p) == LinesOf(y, p) {
      SumLinesOf(base, out, p);
      SumLinesOf(base, out[path := lines], p);
    }
    SameFiles(x, y);
  }

  lemma SumOpen(base: Files, out: Files, path: string)
    ensures Sum(base, out)[path := LinesOf(Sum(base, out), path)] == Sum(base, out[path := LinesOf(out, path)])
  {
    hide Sum, SumLines, LinesOf;
    SumLinesOf(base, out, path);
    SumUpdate(base, out, path, LinesOf(out, path));
  }

  lemma SumAdd(base: Files, out: Files, path: string, n: int, c: int)
    requires path in out && path in Sum(base, out)
    ensures var both := Sum(base, out);
            both[path := both[path][n := HitsOf(both[path], n) + c]] ==
            Sum(base, out[path := out[path][n := HitsOf(out[path], n) + c]])
  {
    hide Sum, SumLines, HitsOf;
    SumLinesOf(base, out, path);
    SumLinesAdd(LinesOf(base, path), out[path], n, c);
    SumUpdate(base, out, path, out[path][n := HitsOf(out[path], n) + c]);
  }

  lemma SumLinesAdd(a: map<int, int>, b: map<int, int>, n: int, c: int)
    ensures SumLines(a, b)[n := HitsOf(SumLines(a, b), n) + c] == SumLines(a, b[n := HitsOf(b, n) + c])
  {
  }

  lemma {:induction false} ReadOnTop(base: Files, lines: seq<string>)
    ensures var q := ReadLines(EMPTY, lines);
            ReadLines(Reader(base, None), lines) == Reader(Sum(base, q.out), q.current)
  {
    hide Sum, Text.Trim, Entry, LinesOf, HitsOf;
    if lines == [] {
      SumNothing(base);
    } else {
      var front, raw := lines[..|lines| - 1], lines[|lines| - 1];
      ReadOnTop(base, front);
      var q := ReadLines(EMPTY, front);
      var line := Text.Trim(raw, Space);
      if "SF:" <= line {
        SumOpen(base, q.out, line[3..]);
      } else if "DA:" <= line && q.current.Some? && Entry(line[3..]).Some? {
        var (n, c) := Entry(line[3..]).value;
        SumAdd(base, q.out, q.current.value, n, c);
      }
    }
  }

  lemma SumNothing(a: Files)
    ensures Sum(a, map[]) == a
  {
    forall p | p in a ensures Sum(a, map[])[p] == a[p] {
      assert SumLines(a[p], map[]) == a[p];
    }
  }

  /** Reports glued together read as their sum, if the first ends its last line and its last
      record. */
  lemma ReadConcat(a: string, b: string)
    requires a == "" || a[|a| - 1] == '\n'
    requires Read(a).current.None?
    ensures Read(a + b) == Reader(Sum(Read(a).out, Read(b).out), Read(b).current)
  {
    hide Lines, ReadLines, Sum;
    LinesAppend(a, b);
    ReadLinesAppend(EMPTY, Lines(a), Lines(b));
    ReadOnTop(Read(a).out, Lines(b));
  }

  /** A text that ends its last line and its last record, as every written report does. */
  ghost predicate Closed(text: string) {
    (text == "" || text[|text| - 1] == '\n') && Read(text).current.None?
  }

  function Concat(texts: seq<string>): string {
    if texts == [] then "" else Concat(texts[..|texts| - 1]) + texts[|texts| - 1]
  }

  /** Merging reports is reading them glued together. */
  lemma {:induction false} MergeIsConcat(texts: seq<string>)
    requires forall i :: 0 <= i < |texts| ==> Closed(texts[i])
    ensures Closed(Concat(texts)) && Read(Concat(texts)).out == Total(ReadAll(texts))
  {
    hide Read, Sum;
    if texts == [] {
      assert Read("") == EMPTY by { ReadNothing(); }
    } else {
      var m := |texts| - 1;
      var front := texts[..m];
      assert forall i :: 0 <= i < m ==> front[i] == texts[i];
      MergeIsConcat(front);
      assert Closed(texts[m]);
      ReadConcat(Concat(front), texts[m]);
      assert ReadAll(texts)[..m] == ReadAll(front);
    }
  }

  lemma ReadNothing()
    ensures Read("") == EMPTY
  {
  }

  // ----- sums ---------------------------------------------------------------------------------

  lemma SumCommutes(a: Files, b: Files)
    ensures Sum(a, b) == Sum(b, a)
  {
    forall p | p in Sum(a, b) ensures Sum(a, b)[p] == Sum(b, a)[p] {
      assert SumLines(LinesOf(a, p), LinesOf(b, p)) == SumLines(LinesOf(b, p), LinesOf(a, p));
    }
  }

  lemma SumAssociates(a: Files, b: Files, c: Files)
    ensures Sum(Sum(a, b), c) == Sum(a, Sum(b, c))
  {
    hide Sum, SumLines, LinesOf;
    SumKeys(a, b);
    SumKeys(b, c);
    SumKeys(Sum(a, b), c);
    SumKeys(a, Sum(b, c));
    forall p ensures LinesOf(Sum(Sum(a, b), c), p) == LinesOf(Sum(a, Sum(b, c)), p) {
      SumLinesOf(a, b, p);
      SumLinesOf(b, c, p);
      SumLinesOf(Sum(a, b), c, p);
      SumLinesOf(a, Sum(b, c), p);
      SumLinesAssociates(LinesOf(a, p), LinesOf(b, p), LinesOf(c, p));
    }
    SameFiles(Sum(Sum(a, b), c), Sum(a, Sum(b, c)));
  }

  lemma SumLinesAssociates(a: map<int, int>, b: map<int, int>, c: map<int, int>)
    ensures SumLines(SumLines(a, b), c) == SumLines(a, SumLines(b, c))
  {
  }

  /** Any one report may be merged last. */
  lemma {:induction false} TotalWithout(reports: seq<Files>, i: nat)
    requires i < |reports|
    ensures Total(reports) == Sum(Total(reports[..i] + reports[i + 1..]), reports[i])
    decreases |reports|
  {
    hide Sum;
    var m := |reports| - 1;
    var others := reports[..i] + reports[i + 1..];
    if i == m {
      assert others == reports[..m];
    } else {
      var front, last := reports[..m], reports[m];
      TotalWithout(front, i);
      var rest := front[..i] + front[i + 1..];
      assert others[..|others| - 1] == rest && others[|others| - 1] == last;
      SumAssociates(Total(rest), front[i], last);
      SumCommutes(front[i], last);
      SumAssociates(Total(rest), last, front[i]);
    }
  }

  lemma Without<T>(s: seq<T>, i: nat)
    requires i < |s|
    ensures multiset(s[..i] + s[i + 1..]) == multiset(s) - multiset{s[i]}
  {
    assert s == s[..i] + [s[i]] + s[i + 1..];
  }

  /** The order of the inputs does not matter. */
  lemma {:induction false} MergeOrder(a: seq<Files>, b: seq<Files>)
    requires multiset(a) == multiset(b)
    ensures Total(a) == Total(b)
    decreases |a|
  {
    hide Sum, Total;
    assert |a| == |multiset(a)| == |multiset(b)| == |b|;
    if a == [] {
      assert b == [];
    } else {
      var m := |a| - 1;
      assert a[m] in multiset(b);
      var i :| 0 <= i < |b| && b[i] == a[m];
      var rest := b[..i] + b[i + 1..];
      Without(a, m);
      Without(b, i);
      assert a[..m] + a[m + 1..] == a[..m];
      MergeOrder(a[..m], rest);
      TotalWithout(a, m);
      TotalWithout(b, i);
    }
  }

  /** A line's counts over all reports. */
  function CountOver(reports: seq<Files>, p: string, n: int): int {
    if reports == [] then 0
    else CountOver(reports[..|reports| - 1], p, n) + HitsOf(LinesOf(reports[|reports| - 1], p), n)
  }

  ghost predicate SomeHas(reports: seq<Files>, p: string, n: int) {
    exists i :: 0 <= i < |reports| && n in LinesOf(reports[i], p)
  }

  lemma SomeHasSnoc(reports: seq<Files>, p: string, n: int)
    requires reports != []
    ensures var m := |reports| - 1;
            SomeHas(reports, p, n) <==> SomeHas(reports[..m], p, n) || n in LinesOf(reports[m], p)
  {
    hide LinesOf;
    var m := |reports| - 1;
    assert forall i :: 0 <= i < m ==> reports[..m][i] == reports[i];
    if SomeHas(reports[..m], p, n) {
      var i :| 0 <= i < m && n in LinesOf(reports[..m][i], p);
      assert n in LinesOf(reports[i], p);
    }
  }

  /** A line is in the merge exactly if it is in some input, with the sum of its counts. */
  lemma {:induction false} TotalAt(reports: seq<Files>, p: string, n: int)
    ensures n in LinesOf(Total(reports), p) <==> SomeHas(reports, p, n)
    ensures HitsOf(LinesOf(Total(reports), p), n) == CountOver(reports, p, n)
  {
    if reports != [] {
      hide Sum, LinesOf, SomeHas;
      var m := |reports| - 1;
      TotalAt(reports[..m], p, n);
      SumLinesOf(Total(reports[..m]), reports[m], p);
      SomeHasSnoc(reports, p, n);
    } else {
      assert Total(reports) == map[];
    }
  }

  ghost predicate NonNegative(f: Files) {
    forall p, n :: p in f && n in f[p] ==> f[p][n] >= 0
  }

  /** A merged line is unexecuted exactly if no input executed it. */
  lemma {:induction false} ZeroIff(reports: seq<Files>, p: string, n: int)
    requires forall i :: 0 <= i < |reports| ==> NonNegative(reports[i])
    ensures var total := HitsOf(LinesOf(Total(reports), p), n);
            && total >= 0
            && (total == 0 <==> forall i :: 0 <= i < |reports| ==> HitsOf(LinesOf(reports[i], p), n) == 0)
  {
    hide Total, LinesOf, HitsOf;
    TotalAt(reports, p, n);
    CountZero(reports, p, n);
  }

  lemma {:induction false} CountZero(reports: seq<Files>, p: string, n: int)
    requires forall i :: 0 <= i < |reports| ==> NonNegative(reports[i])
    ensures CountOver(reports, p, n) >= 0
    ensures CountOver(reports, p, n) == 0 <==> forall i :: 0 <= i < |reports| ==> HitsOf(LinesOf(reports[i], p), n) == 0
  {
    if reports != [] {
      var m := |reports| - 1;
      CountZero(reports[..m], p, n);
      assert NonNegative(reports[m]) && HitsOf(LinesOf(reports[m], p), n) >= 0;
      assert forall i :: 0 <= i < m ==> reports[..m][i] == reports[i];
    }
  }
}
