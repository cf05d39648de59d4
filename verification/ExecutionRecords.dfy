/** What the record of a call says, field by field, straight from what the call did. */
module ExecutionRecords {
  import opened Wrappers
  import opened Bytes
  import opened Text
  import opened LogLines
  import opened CallTree
  import opened Attribution
  import opened Emission
  import opened EventHoist
  import opened TraceBuild
  import opened ExecutionEvents
  import opened ExecutionOrigin
  import opened EventOrder

  /** A message as it is shown: without blanks at its end, and by its prefix if there is nothing else.
      Data without content is shown by its prefix too. */
  function TextOf(e: Event): seq<string> {
    match e
    case Log(msg) => [if Blank(msg, Ws) then "Program log:" else TrimEnd(msg, Ws)]
    case Data(chunks) => if forall k :: 0 <= k < |chunks| ==> chunks[k] == [] then ["Program data:"] else []
    case _ => []
  }

  function Texts(items: seq<Item>): seq<string> {
    if items == [] then [] else (if items[0].Own? then TextOf(items[0].event) else []) + Texts(items[1..])
  }

  /** `r` is what the last of the call's unit lines says. */
  ghost predicate LastUnits(items: seq<Item>, r: Option<nat>) {
    match r
    case None => forall k :: 0 <= k < |items| && items[k].Own? ==> !items[k].event.Units?
    case Some(u) =>
      exists k :: 0 <= k < |items| && items[k].Own? && items[k].event.Units? && items[k].event.used == u
                  && forall m :: k < m < |items| && items[m].Own? ==> !items[m].event.Units?
  }

  predicate Returns(i: Item) {
    i.Own? && i.event.Return? && i.event.data != []
  }

  /** `r` is the last return data of the call that is not empty. */
  ghost predicate LastReturn(items: seq<Item>, r: Option<seq<Byte>>) {
    match r
    case None => forall k :: 0 <= k < |items| ==> !Returns(items[k])
    case Some(d) =>
      exists k :: 0 <= k < |items| && Returns(items[k]) && items[k].event.data == d
                  && forall m :: k < m < |items| ==> !Returns(items[m])
  }

  // ----- following the items ------------------------------------------------------------------

  /** The record after the opening and these items. */
  function After(items: seq<Item>, pid: string, height: nat): Rec {
    Report([Tagged(0, pid, Invoke(height))] + Owns(items, 0, pid))
  }

  lemma {:induction false} OwnsMore(items: seq<Item>, i: Item, pid: string)
    ensures Owns(items + [i], 0, pid) == Owns(items, 0, pid) + if i.Own? then [Tagged(0, pid, i.event)] else []
    decreases |items|
  {
    if items == [] {
      assert items + [i] == [i] && [i][1..] == [];
    } else {
      assert (items + [i])[1..] == items[1..] + [i];
      OwnsMore(items[1..], i, pid);
    }
  }

  lemma AfterMore(items: seq<Item>, i: Item, pid: string, height: nat)
    ensures After(items + [i], pid, height)
            == if i.Own? then Absorb(After(items, pid, height), Meaning(pid, i.event)) else After(items, pid, height)
  {
    hide Owns, Report, Absorb, Meaning;
    OwnsMore(items, i, pid);
    var front := [Tagged(0, pid, Invoke(height))] + Owns(items, 0, pid);
    assert Owns(items, 0, pid) + [] == Owns(items, 0, pid);
    if i.Own? {
      var t := Tagged(0, pid, i.event);
      assert [Tagged(0, pid, Invoke(height))] + (Owns(items, 0, pid) + [t]) == front + [t];
      ReportLast(front, t);
    }
  }

  lemma {:induction false} TextsMore(items: seq<Item>, i: Item)
    ensures Texts(items + [i]) == Texts(items) + if i.Own? then TextOf(i.event) else []
    decreases |items|
  {
    hide TextOf;
    if items == [] {
      assert items + [i] == [i] && [i][1..] == [];
    } else {
      assert (items + [i])[1..] == items[1..] + [i];
      TextsMore(items[1..], i);
    }
  }

  lemma NothingAfter(pid: string, height: nat)
    ensures After([], pid, height) == FRESH
  {
    var t := Tagged(0, pid, Invoke(height));
    assert [t] + [] == [t] && [t][..0] == [];
    assert Report([t]) == Absorb(Report([]), Meaning(pid, t.event));
  }

  /** What one event adds. */
  lemma AbsorbIs(r: Rec, pid: string, e: Event)
    ensures var q := Absorb(r, Meaning(pid, e));
            && q.logs == r.logs + TextOf(e)
            && q.units == (if e.Units? then Some(e.used) else r.units)
            && q.ret == (if e.Return? && e.data != [] then Some(e.data) else r.ret)
  {
    hide TrimEnd, Trim, Blank;
    if e.Data? { ChunkFirst(e.chunks); }
  }

  lemma {:induction false} ChunkFirst(chunks: seq<seq<Byte>>)
    ensures FirstChunk(chunks).None? <==> forall k :: 0 <= k < |chunks| ==> chunks[k] == []
    ensures FirstChunk(chunks).Some? ==>
              exists k :: 0 <= k < |chunks| && chunks[k] == FirstChunk(chunks).value != [] && forall j :: 0 <= j < k ==> chunks[j] == []
  {
    if chunks != [] {
      ChunkFirst(chunks[1..]);
      assert forall k :: 1 <= k < |chunks| ==> chunks[k] == chunks[1..][k - 1];
      if chunks[0] == [] && FirstChunk(chunks).Some? {
        var k :| 0 <= k < |chunks[1..]| && chunks[1..][k] == FirstChunk(chunks[1..]).value != [] && forall j :: 0 <= j < k ==> chunks[1..][j] == [];
        assert chunks[k + 1] == FirstChunk(chunks).value;
      }
    }
  }

  lemma {:induction false} AfterIs(items: seq<Item>, pid: string, height: nat)
    ensures var r := After(items, pid, height);
            r.logs == Texts(items) && LastUnits(items, r.units) && LastReturn(items, r.ret)
    decreases |items|
  {
    if items == [] {
      NothingAfter(pid, height);
    } else {
      hide After, Absorb, Meaning, TextOf, LastUnits, LastReturn;
      var n := |items| - 1;
      var front, i := items[..n], items[n];
      assert items == front + [i];
      AfterIs(front, pid, height);
      AfterMore(front, i, pid, height);
      TextsMore(front, i);
      assert Texts(front) + [] == Texts(front);
      if i.Own? { AbsorbIs(After(front, pid, height), pid, i.event); }
      UnitsMore(front, i, After(front, pid, height).units);
      ReturnMore(front, i, After(front, pid, height).ret);
    }
  }

  lemma UnitsMore(items: seq<Item>, i: Item, r: Option<nat>)
    requires LastUnits(items, r)
    ensures LastUnits(items + [i], if i.Own? && i.event.Units? then Some(i.event.used) else r)
  {
    var more := items + [i];
    assert more[|items|] == i && forall k :: 0 <= k < |items| ==> more[k] == items[k];
    if !(i.Own? && i.event.Units?) && r.Some? {
      var k :| 0 <= k < |items| && items[k].Own? && items[k].event.Units? && items[k].event.used == r.value
               && forall m :: k < m < |items| && items[m].Own? ==> !items[m].event.Units?;
      assert more[k] == items[k];
    }
  }

  lemma ReturnMore(items: seq<Item>, i: Item, r: Option<seq<Byte>>)
    requires LastReturn(items, r)
    ensures LastReturn(items + [i], if Returns(i) then Some(i.event.data) else r)
  {
    var more := items + [i];
    assert more[|items|] == i && forall k :: 0 <= k < |items| ==> more[k] == items[k];
    if !Returns(i) && r.Some? {
      var k :| 0 <= k < |items| && Returns(items[k]) && items[k].event.data == r.value
               && forall m :: k < m < |items| ==> !Returns(items[m]);
      assert more[k] == items[k];
    }
  }

  /** The record of a call, field by field: its own texts in order, the units of its last unit line, its
      last return data, its events in order, and how it ended. */
  lemma RecordIs(c: Call, height: nat)
    requires Executable(c) && !IsPrecompile(c.pid)
    ensures var r := OwnRecord(c, height);
            && r.logs == Texts(c.items) && LastUnits(c.items, r.units) && LastReturn(c.items, r.ret)
            && r.events == DataLogged(c.items)
            && r.status == (if c.end.Fail? then Failed else Success)
            && r.error == (if c.end.Fail? && !Blank(c.end.msg, Ws) then Some(Trim(c.end.msg, Ws)) else None)
  {
    hide IsPrecompile, Executable, Report, Owns, DataIn, Texts, LastUnits, LastReturn, Trim, Blank, TextOf;
    AfterIs(c.items, c.pid, height);
    ReportLast([Tagged(0, c.pid, Invoke(height))] + Owns(c.items, 0, c.pid), Tagged(0, c.pid, c.end));
    EndRecorded(c, height);
    EndSays(c);
    OwnEvents(c, height);
    DataLoggedIs(c.items, c.pid);
  }

  lemma EndSays(c: Call)
    requires Executable(c)
    ensures c.end.Succeed? || c.end.Fail?
  {
  }
}
