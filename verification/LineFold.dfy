/** From statement rows to line counts: one charge per run of rows, the largest run counts. */
module LineFold {
  import opened Wrappers

  datatype Key = Key(file: string, line: nat)

  datatype Row = Row(address: nat, key: Key)

  const INSN_SIZE: nat := 8

  /** Executions of the instruction at an address. */
  function HitsAt(text: nat, hits: seq<nat>, addr: nat): nat {
    if addr < text then 0
    else
      var pc := (addr - text) / INSN_SIZE;
      if pc < |hits| then hits[pc] else 0
  }

  /** An address counts what its instruction counts, eight bytes each from the start of the text on;
      one outside the instructions counts nothing. */
  lemma HitsAtIs(text: nat, hits: seq<nat>, addr: nat)
    ensures forall pc :: 0 <= pc < |hits| && text + 8 * pc <= addr < text + 8 * pc + 8 ==> HitsAt(text, hits, addr) == hits[pc]
    ensures addr < text || addr >= text + 8 * |hits| ==> HitsAt(text, hits, addr) == 0
  {
    forall pc | 0 <= pc < |hits| && text + 8 * pc <= addr < text + 8 * pc + 8 ensures HitsAt(text, hits, addr) == hits[pc] {
      assert (addr - text) / 8 == pc;
    }
  }

  function Max(a: nat, b: nat): nat {
    if a < b then b else a
  }

  /** Row `h` opens a run: the row before it, if any, is for another line. */
  predicate Head(rows: seq<Row>, h: nat) {
    h < |rows| && (h == 0 || rows[h - 1].key != rows[h].key)
  }

  /** The counts after all rows. */
  function Counts(rows: seq<Row>, text: nat, hits: seq<nat>): map<Key, nat> {
    if rows == [] then map[]
    else
      var n := |rows| - 1;
      var before, key := Counts(rows[..n], text, hits), rows[n].key;
      var slot := if key in before then before[key] else 0;
      before[key := if Head(rows, n) then Max(slot, HitsAt(text, hits, rows[n].address)) else slot]
  }

  /** The fold in `resolve_program`: a line is reported exactly if some row belongs to it, and its
      count is the largest hit count among the rows that open a run of it. */
  method FoldRows(rows: seq<Row>, text: nat, hits: seq<nat>) returns (lines: map<Key, nat>)
    ensures lines == Counts(rows, text, hits)
    ensures forall k :: k in lines <==> Owns(rows, k)
    ensures forall k :: k in lines ==> Largest(rows, k, text, hits, lines[k])
  {
    lines := map[];
    var prev: Option<Key> := None;
    for i := 0 to |rows|
      invariant lines == Counts(rows[..i], text, hits)
      invariant prev == if i == 0 then None else Some(rows[i - 1].key)
    {
      assert rows[..i + 1][..i] == rows[..i];
      assert Head(rows[..i + 1], i) <==> Head(rows, i);
      var key := rows[i].key;
      if key !in lines { lines := lines[key := 0]; }
      if prev != Some(key) { lines := lines[key := Max(lines[key], HitsAt(text, hits, rows[i].address))]; }
      prev := Some(key);
    }
    assert rows[..|rows|] == rows;
    forall k { CountIs(rows, k, text, hits); }
  }

  /** `v` is the largest hit count among the rows that open a run of `k`. */
  ghost predicate Largest(rows: seq<Row>, k: Key, text: nat, hits: seq<nat>, v: nat) {
    && (forall h: nat :: Head(rows, h) && rows[h].key == k ==> HitsAt(text, hits, rows[h].address) <= v)
    && exists h: nat :: Head(rows, h) && rows[h].key == k && HitsAt(text, hits, rows[h].address) == v
  }

  ghost predicate Owns(rows: seq<Row>, k: Key) {
    exists i :: 0 <= i < |rows| && rows[i].key == k
  }

  lemma HeadSnoc(front: seq<Row>, r: Row, h: nat)
    requires h < |front|
    ensures Head(front + [r], h) <==> Head(front, h)
    ensures (front + [r])[h] == front[h]
  {
  }

  lemma LargestSnoc(front: seq<Row>, r: Row, k: Key, text: nat, hits: seq<nat>, v: nat)
    requires Largest(front, k, text, hits, v)
    ensures var rows := front + [r];
            Largest(rows, k, text, hits,
                    if r.key == k && Head(rows, |front|) then Max(v, HitsAt(text, hits, r.address)) else v)
  {
    hide HitsAt;
    var rows := front + [r];
    var h: nat :| Head(front, h) && front[h].key == k && HitsAt(text, hits, front[h].address) == v;
    HeadSnoc(front, r, h);
    forall h: nat | Head(rows, h) && h != |front| ensures Head(front, h) && rows[h] == front[h] {
      HeadSnoc(front, r, h);
    }
  }

  lemma LargestFirst(front: seq<Row>, r: Row, text: nat, hits: seq<nat>)
    requires !Owns(front, r.key)
    ensures var rows := front + [r];
            Head(rows, |front|) && Largest(rows, r.key, text, hits, HitsAt(text, hits, r.address))
  {
    hide HitsAt;
    var rows := front + [r];
    assert |front| > 0 ==> front[|front| - 1].key != r.key;
    assert Head(rows, |front|) && rows[|front|] == r;
    forall h: nat | h < |front| ensures rows[h].key != r.key {
      assert rows[h] == front[h];
    }
  }

  lemma OwnsSnoc(front: seq<Row>, r: Row, k: Key)
    ensures Owns(front + [r], k) <==> Owns(front, k) || r.key == k
  {
    var rows := front + [r];
    assert rows[|front|] == r;
    if Owns(front, k) {
      var i :| 0 <= i < |front| && front[i].key == k;
      assert rows[i].key == k;
    }
  }

  lemma {:induction false} CountIs(rows: seq<Row>, k: Key, text: nat, hits: seq<nat>)
    ensures var lines := Counts(rows, text, hits);
            && (k in lines <==> Owns(rows, k))
            && (k in lines ==> Largest(rows, k, text, hits, lines[k]))
  {
    if rows != [] {
      hide HitsAt, Owns, Largest, Head;
      var n := |rows| - 1;
      var front, r := rows[..n], rows[n];
      assert rows == front + [r];
      CountIs(front, k, text, hits);
      OwnsSnoc(front, r, k);
      if k in Counts(front, text, hits) {
        LargestSnoc(front, r, k, text, hits, Counts(front, text, hits)[k]);
      } else if r.key == k {
        LargestFirst(front, r, text, hits);
      }
    }
  }

  /** Another row of the same line inside a run changes no count. */
  lemma {:induction false} RowInsideRun(rows: seq<Row>, i: nat, r: Row, text: nat, hits: seq<nat>)
    requires 0 < i <= |rows| && r.key == rows[i - 1].key
    ensures Counts(rows[..i] + [r] + rows[i..], text, hits) == Counts(rows, text, hits)
    decreases |rows| - i, rows
  {
    if i == |rows| {
      assert rows[..i] + [r] + rows[i..] == rows + [r];
      RowAtEnd(rows, r, text, hits);
    } else {
      hide Counts, HitsAt;
      var n := |rows| - 1;
      var front, last := rows[..n], rows[n];
      var all := front[..i] + [r] + front[i..];
      assert rows == front + [last] && rows[..i] + [r] + rows[i..] == all + [last];
      RowInsideRun(front, i, r, text, hits);
      CountsSnoc(front, last, text, hits);
      CountsSnoc(all, last, text, hits);
      assert Head(all + [last], |all|) <==> Head(front + [last], n);
    }
  }

  lemma CountsSnoc(front: seq<Row>, r: Row, text: nat, hits: seq<nat>)
    ensures var before := Counts(front, text, hits);
            var slot := if r.key in before then before[r.key] else 0;
            Counts(front + [r], text, hits)
            == before[r.key := if Head(front + [r], |front|) then Max(slot, HitsAt(text, hits, r.address)) else slot]
  {
    hide HitsAt, Head, Max;
    var rows := front + [r];
    assert rows[..|front|] == front && rows[|front|] == r;
  }

  lemma RowAtEnd(rows: seq<Row>, r: Row, text: nat, hits: seq<nat>)
    requires rows != [] && r.key == rows[|rows| - 1].key
    ensures Counts(rows + [r], text, hits) == Counts(rows, text, hits)
  {
    hide Counts, HitsAt;
    CountsSnoc(rows, r, text, hits);
    assert Owns(rows, r.key);
    CountIs(rows, r.key, text, hits);
  }

  // ----- several programs in one report -------------------------------------------------------

  const U64_MAX: nat := 0xFFFF_FFFF_FFFF_FFFF

  function Capped(n: nat): nat {
    if n > U64_MAX then U64_MAX else n
  }

  function At(lines: map<Key, nat>, k: Key): nat {
    if k in lines then lines[k] else 0
  }

  function AddCapped(out: map<Key, nat>, lines: map<Key, nat>): map<Key, nat> {
    map k | k in out.Keys + lines.Keys :: Capped(At(out, k) + At(lines, k))
  }

  /** A program's lines are added to the report, without overflow. */
  method AddProgram(out: map<Key, nat>, lines: map<Key, nat>) returns (r: map<Key, nat>)
    requires forall k :: k in out ==> out[k] <= U64_MAX
    ensures r == AddCapped(out, lines)
  {
    r := out;
    var todo := lines.Keys;
    while todo != {}
      invariant todo <= lines.Keys && r.Keys == out.Keys + (lines.Keys - todo)
      invariant forall k :: k in r ==> r[k] == if k in lines && k !in todo then Capped(At(out, k) + lines[k]) else At(out, k)
      decreases todo
    {
      var k :| k in todo;
      r := r[k := Capped(At(r, k) + lines[k])];
      todo := todo - {k};
    }
  }

  function ReportOf(programs: seq<map<Key, nat>>): map<Key, nat> {
    if programs == [] then map[] else AddCapped(ReportOf(programs[..|programs| - 1]), programs[|programs| - 1])
  }

  function SumAt(programs: seq<map<Key, nat>>, k: Key): nat {
    if programs == [] then 0 else SumAt(programs[..|programs| - 1], k) + At(programs[|programs| - 1], k)
  }

  /** Over any number of programs, in whatever order, a line's count is the sum of its counts, cut
      off only where the whole sum does not fit. */
  lemma {:induction false} ReportIs(programs: seq<map<Key, nat>>, k: Key)
    ensures var sum := SumAt(programs, k); At(ReportOf(programs), k) == if sum < 0x1_0000_0000_0000_0000 then sum else 0xFFFF_FFFF_FFFF_FFFF
    ensures k in ReportOf(programs) <==> exists i :: 0 <= i < |programs| && k in programs[i]
  {
    if programs != [] {
      var n := |programs| - 1;
      ReportIs(programs[..n], k);
      assert forall i :: 0 <= i < n ==> programs[..n][i] == programs[i];
      if k in ReportOf(programs[..n]) {
        var i :| 0 <= i < n && k in programs[..n][i];
        assert k in programs[i];
      }
    }
  }
}
