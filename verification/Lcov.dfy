/** LCOV text: the reader, the writer and the merge of line counts. */
module Lcov {
  import opened Wrappers
  import Text

  /** Hits per line number, per source path. */
  type Files = map<string, map<int, int>>

  // ----- counts -------------------------------------------------------------------------------

  function LinesOf(files: Files, path: string): map<int, int> {
    if path in files then files[path] else map[]
  }

  function HitsOf(lines: map<int, int>, number: int): int {
    if number in lines then lines[number] else 0
  }

  function SumLines(a: map<int, int>, b: map<int, int>): map<int, int> {
    map n | n in a.Keys + b.Keys :: HitsOf(a, n) + HitsOf(b, n)
  }

  /** Line counts of disjoint executions add up. */
  function Sum(a: Files, b: Files): Files {
    map p | p in a.Keys + b.Keys :: SumLines(LinesOf(a, p), LinesOf(b, p))
  }

  // ----- characters and numbers ---------------------------------------------------------------

  /** Where Python's `str.splitlines` breaks. */
  predicate LineBreak(c: char) {
    '\n' <= c <= '\r' || '\U{1C}' <= c <= '\U{1E}' || c == '\U{85}' || c == '\U{2028}' || c == '\U{2029}'
  }

  /** What Python's `str.strip` removes. */
  predicate Space(c: char) {
    || '\t' <= c <= '\r' || '\U{1C}' <= c <= ' ' || c == '\U{85}' || c == '\U{A0}' || c == '\U{1680}'
    || '\U{2000}' <= c <= '\U{200A}' || c == '\U{2028}' || c == '\U{2029}' || c == '\U{202F}' || c == '\U{205F}' || c == '\U{3000}'
  }

  predicate Comma(c: char) {
    c == ','
  }

  /** Digits may be grouped by single underscores. */
  predicate Grouped(s: string) {
    s == "" || (s[0] != '_' && s[|s| - 1] != '_' && forall i :: 1 <= i < |s| ==> s[i - 1] != '_' || s[i] != '_')
  }

  function Ungrouped(s: string): (r: string) {
    if s == "" then "" else (if s[0] == '_' then "" else [s[0]]) + Ungrouped(s[1..])
  }

  /** Python's `int` on a string. */
  function ParseInt(s: string): Option<int> {
    var t := Text.Trim(s, Space);
    var signed := t != "" && (t[0] == '+' || t[0] == '-');
    var digits := if signed then t[1..] else t;
    if !Grouped(digits) then None
    else
      var n := Text.Number(Ungrouped(digits));
      if n.None? then None
      else
        var value: int := n.value;
        Some(if signed && t[0] == '-' then -value else value)
  }

  function Signed(n: int): string {
    if n < 0 then "-" + Text.Decimal(-n) else Text.Decimal(n)
  }

  // ----- reading ------------------------------------------------------------------------------

  /** A carriage return and a newline make one break. */
  function BreakLen(text: string, n: nat): (k: nat)
    requires n < |text|
    ensures 1 <= k && n + k <= |text|
  {
    if text[n] == '\r' && n + 1 < |text| && text[n + 1] == '\n' then 2 else 1
  }

  function Lines(text: string): seq<string> {
    if text == "" then []
    else
      var n := Text.WordLen(text, LineBreak);
      if n == |text| then [text] else [text[..n]] + Lines(text[n + BreakLen(text, n)..])
  }

  datatype Reader = Reader(out: Files, current: Option<string>) {
    ghost predicate Valid() {
      current.Some? ==> current.value in out
    }
  }

  /** The number and the count of a `DA:` line, if both are integers. */
  function Entry(s: string): Option<(int, int)> {
    var n := Text.WordLen(s, Comma);
    var rest := if n < |s| then s[n + 1..] else "";
    var number, count := ParseInt(s[..n]), ParseInt(rest[..Text.WordLen(rest, Comma)]);
    if number.None? || count.None? then None else Some((number.value, count.value))
  }

  function ReadLine(r: Reader, raw: string): (q: Reader)
    requires r.Valid()
    ensures q.Valid()
  {
    var line := Text.Trim(raw, Space);
    if "SF:" <= line then Reader(r.out[line[3..] := LinesOf(r.out, line[3..])], Some(line[3..]))
    else if "DA:" <= line && r.current.Some? then
      var e, path := Entry(line[3..]), r.current.value;
      if e.None? then r
      else
        var lines, (number, count) := r.out[path], e.value;
        Reader(r.out[path := lines[number := HitsOf(lines, number) + count]], r.current)
    else if line == "end_of_record" then r.(current := None)
    else r
  }

  function ReadLines(r: Reader, lines: seq<string>): (q: Reader)
    requires r.Valid()
    ensures q.Valid()
  {
    if lines == [] then r else ReadLine(ReadLines(r, lines[..|lines| - 1]), lines[|lines| - 1])
  }

  const EMPTY := Reader(map[], None)

  function Read(text: string): Reader {
    ReadLines(EMPTY, Lines(text))
  }

  method ParseLcov(text: string) returns (out: Files)
    ensures out == Read(text).out
  {
    hide Lines, Entry, Text.Trim, HitsOf;
    out := map[];
    var current: Option<string> := None;
    var lines := Lines(text);
    for i := 0 to |lines|
      invariant Reader(out, current).Valid()
      invariant Reader(out, current) == ReadLines(EMPTY, lines[..i])
    {
      assert lines[..i + 1][..i] == lines[..i];
      var line := Text.Trim(lines[i], Space);
      if "SF:" <= line {
        var path := line[3..];
        if path !in out { out := out[path := map[]]; }
        current := Some(path);
      } else if "DA:" <= line && current.Some? {
        var e := Entry(line[3..]);
        if e.None? { continue; }
        var lines := out[current.value];
        lines := lines[e.value.0 := HitsOf(lines, e.value.0) + e.value.1];
        out := out[current.value := lines];
      } else if line == "end_of_record" {
        current := None;
      }
    }
    assert lines[..|lines|] == lines;
  }

  // ----- writing ------------------------------------------------------------------------------

  /** One source file in the order in which it is written. */
  datatype Record = Record(path: string, lines: seq<(int, int)>)

  function EntryLine(e: (int, int)): string {
    "DA:" + Signed(e.0) + "," + Signed(e.1)
  }

  function EntryLines(es: seq<(int, int)>): seq<string> {
    if es == [] then [] else EntryLines(es[..|es| - 1]) + [EntryLine(es[|es| - 1])]
  }

  function Covered(es: seq<(int, int)>): nat {
    if es == [] then 0 else Covered(es[..|es| - 1]) + if es[|es| - 1].1 != 0 then 1 else 0
  }

  function Opening(path: string): seq<string> {
    ["TN:", "SF:" + path]
  }

  function Closing(es: seq<(int, int)>): seq<string> {
    ["LF:" + Text.Decimal(|es|), "LH:" + Text.Decimal(Covered(es)), "end_of_record"]
  }

  function RecordLines(r: Record): seq<string> {
    Opening(r.path) + EntryLines(r.lines) + Closing(r.lines)
  }

  function ReportLines(recs: seq<Record>): seq<string> {
    if recs == [] then [] else ReportLines(recs[..|recs| - 1]) + RecordLines(recs[|recs| - 1])
  }

  /** Every line followed by a newline. */
  function Unlines(lines: seq<string>): string {
    if lines == [] then "" else lines[0] + "\n" + Unlines(lines[1..])
  }

  /** Python's `"\n".join`. */
  function Join(lines: seq<string>): string {
    if lines == [] then "" else if |lines| == 1 then lines[0] else lines[0] + "\n" + Join(lines[1..])
  }

  function Report(recs: seq<Record>): string {
    Unlines(ReportLines(recs))
  }

  lemma {:induction false} JoinUnlines(lines: seq<string>)
    requires lines != []
    ensures Join(lines) + "\n" == Unlines(lines)
  {
    if |lines| > 1 {
      JoinUnlines(lines[1..]);
      assert lines[0] + "\n" + Join(lines[1..]) + "\n" == lines[0] + "\n" + (Join(lines[1..]) + "\n");
    } else {
      assert lines[1..] == [] && lines[0] + "\n" + "" == lines[0] + "\n";
    }
  }

  lemma NoLines()
    ensures Unlines([]) == ""
  {
  }

  method FormatRecord(r: Record) returns (out: seq<string>)
    ensures out == RecordLines(r)
  {
    hide EntryLine, Opening;
    out := Opening(r.path);
    var covered := 0;
    for j := 0 to |r.lines|
      invariant out == Opening(r.path) + EntryLines(r.lines[..j])
      invariant covered == Covered(r.lines[..j])
    {
      assert r.lines[..j + 1][..j] == r.lines[..j];
      out := out + [EntryLine(r.lines[j])];
      if r.lines[j].1 != 0 { covered := covered + 1; }
    }
    assert r.lines[..|r.lines|] == r.lines;
    out := out + ["LF:" + Text.Decimal(|r.lines|), "LH:" + Text.Decimal(covered), "end_of_record"];
  }

  method FormatRecords(recs: seq<Record>) returns (text: string)
    ensures text == Report(recs)
  {
    hide RecordLines, Join, Unlines;
    var out: seq<string> := [];
    for i := 0 to |recs|
      invariant out == ReportLines(recs[..i])
    {
      assert recs[..i + 1][..i] == recs[..i];
      var lines := FormatRecord(recs[i]);
      out := out + lines;
    }
    assert recs[..|recs|] == recs;
    if out == [] {
      assert Unlines([]) == "" by { NoLines(); }
      return "";
    }
    JoinUnlines(out);
    return Join(out) + "\n";
  }

  /** The records list exactly the files, each path once and each line number once, in any order. */
  ghost predicate Lists(recs: seq<Record>, files: Files) {
    && (forall i, j :: 0 <= i < j < |recs| ==> recs[i].path != recs[j].path)
    && (forall p :: p in files <==> exists i :: 0 <= i < |recs| && recs[i].path == p)
    && forall i :: 0 <= i < |recs| ==> recs[i].path in files && ListsLines(recs[i].lines, files[recs[i].path])
  }

  ghost predicate ListsLines(es: seq<(int, int)>, lines: map<int, int>) {
    && (forall i, j :: 0 <= i < j < |es| ==> es[i].0 != es[j].0)
    && (forall n :: n in lines <==> exists i :: 0 <= i < |es| && es[i].0 == n)
    && forall i :: 0 <= i < |es| ==> es[i].0 in lines && lines[es[i].0] == es[i].1
  }

  // ----- merging ------------------------------------------------------------------------------

  lemma Nonempty(s: set<int>)
    requires s != {}
    ensures exists n :: n in s
  {
    assert (forall n :: n !in s) ==> s == {};
  }

  method AddLines(dst: map<int, int>, src: map<int, int>) returns (into: map<int, int>)
    ensures into == SumLines(dst, src)
  {
    into := dst;
    var left: set<int> := src.Keys;
    while left != {}
      invariant left <= src.Keys
      invariant into.Keys == dst.Keys + (src.Keys - left)
      invariant forall n :: n in into ==> into[n] == HitsOf(dst, n) + if n in src && n !in left then src[n] else 0
      decreases left
    {
      assert exists n :: n in left by { Nonempty(left); }
      var n :| n in left;
      into := into[n := HitsOf(into, n) + src[n]];
      left := left - {n};
    }
  }

  /** The counts of one report added to another, file by file and line by line, in whatever order
      the two are stored. */
  method MergeInto(dst: Files, src: Files) returns (merged: Files)
    ensures merged == Sum(dst, src)
  {
    hide SumLines, Sum;
    merged := dst;
    var todo := src.Keys;
    while todo != {}
      invariant todo <= src.Keys
      invariant merged.Keys == dst.Keys + (src.Keys - todo)
      invariant forall p :: p in merged && p in src && p !in todo ==> merged[p] == SumLines(LinesOf(dst, p), src[p])
      invariant forall p :: p in merged && (p !in src || p in todo) ==> p in dst && merged[p] == dst[p]
      decreases todo
    {
      var p :| p in todo;
      var into := AddLines(LinesOf(merged, p), src[p]);
      merged := merged[p := into];
      todo := todo - {p};
    }
    MergedAll(dst, src, merged);
  }

  lemma MergedAll(dst: Files, src: Files, merged: Files)
    requires merged.Keys == dst.Keys + src.Keys
    requires forall p :: p in src ==> merged[p] == SumLines(LinesOf(dst, p), src[p])
    requires forall p :: p in dst && p !in src ==> merged[p] == dst[p]
    ensures merged == Sum(dst, src)
  {
    forall p | p in dst && p !in src ensures Sum(dst, src)[p] == dst[p] {
      assert SumLines(dst[p], map[]) == dst[p];
    }
  }

  /** All reports added up. */
  function Total(reports: seq<Files>): Files {
    if reports == [] then map[] else Sum(Total(reports[..|reports| - 1]), reports[|reports| - 1])
  }

  function ReadAll(texts: seq<string>): seq<Files> {
    seq(|texts|, i requires 0 <= i < |texts| => Read(texts[i]).out)
  }

  method MergeLcov(texts: seq<string>) returns (merged: Files)
    ensures merged == Total(ReadAll(texts))
  {
    merged := map[];
    for i := 0 to |texts|
      invariant merged == Total(ReadAll(texts)[..i])
    {
      var report := ParseLcov(texts[i]);
      assert ReadAll(texts)[..i + 1][..i] == ReadAll(texts)[..i];
      merged := MergeInto(merged, report);
    }
    assert ReadAll(texts)[..|texts|] == ReadAll(texts);
  }
}
