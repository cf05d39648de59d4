/** Attribution inverts emission: executing a forest of calls produces one flat log stream, and
    however early that stream stops, every node gets exactly what it had logged by then. */
module Emission {
  import opened Wrappers
  import opened Bytes
  import opened LogLines
  import opened Attribution

  /** An invocation with its instruction data: what it logged itself and the calls it made, in order, and how it ended. */
  datatype Call = Call(pid: string, data: seq<Byte>, items: seq<Item>, end: Event)

  datatype Item = Own(event: Event) | Sub(call: Call)

  /** An event with its program and the pre-order index of the node it belongs to. */
  datatype Tagged = Tagged(node: nat, pid: string, event: Event)

  predicate Ends(e: Event) {
    e.Succeed? || e.Fail?
  }

  /** Runtime rules: frames end once and say so, messages do not imitate markers, and
      precompiles neither log nor call. */
  predicate Executable(c: Call)
    decreases c, 0
  {
    && ProgramId(c.pid) && Ends(c.end)
    && (IsPrecompile(c.pid) ==> c.items == [])
    && AllExecutable(c.items)
  }

  predicate AllExecutable(items: seq<Item>)
    decreases items, 0
  {
    items == [] ||
    (assert items[0].Sub? ==> items[0].call < items[0];
     && AllExecutable(items[1..])
     && match items[0]
        case Own(e) => Readable(e) && !Ends(e) && !e.Invoke?
        case Sub(c) => Executable(c))
  }

  function Size(c: Call): (n: nat)
    ensures n > 0
    decreases c, 0
  {
    1 + SizeAll(c.items)
  }

  function SizeAll(items: seq<Item>): nat
    decreases items, 0
  {
    if items == [] then 0
    else
      assert items[0].Sub? ==> items[0].call < items[0];
      (if items[0].Sub? then Size(items[0].call) else 0) + SizeAll(items[1..])
  }

  /** Program ids in pre-order. */
  function Pids(c: Call): (r: seq<string>)
    ensures |r| == Size(c)
    decreases c, 0
  {
    [c.pid] + PidsAll(c.items)
  }

  function PidsAll(items: seq<Item>): (r: seq<string>)
    ensures |r| == SizeAll(items)
    decreases items, 0
  {
    if items == [] then []
    else
      assert items[0].Sub? ==> items[0].call < items[0];
      (if items[0].Sub? then Pids(items[0].call) else []) + PidsAll(items[1..])
  }

  /** The log stream of a call that is node `i`, at stack height `height`. */
  function Emit(c: Call, i: nat, height: nat): seq<Tagged>
    decreases c, 0
  {
    if IsPrecompile(c.pid) then []
    else [Tagged(i, c.pid, Invoke(height))] + EmitAll(c.items, i, c.pid, i + 1, height) + [Tagged(i, c.pid, c.end)]
  }

  /** What the items of node `i` log, `next` being the next free pre-order index. */
  function EmitAll(items: seq<Item>, i: nat, pid: string, next: nat, height: nat): seq<Tagged>
    decreases items, 0
  {
    if items == [] then []
    else
      assert items[0].Sub? ==> items[0].call < items[0];
      match items[0]
      case Own(e) => [Tagged(i, pid, e)] + EmitAll(items[1..], i, pid, next, height)
      case Sub(c) => Emit(c, next, height + 1) + EmitAll(items[1..], i, pid, next + Size(c), height)
  }

  // ----- following the stream -----------------------------------------------------------------

  /** Where the trace builder stands: open frames and cursor. */
  datatype Place = Place(stack: seq<nat>, next: nat)

  /** Follows a stream as long as every event belongs to the frame the builder takes it to
      belong to. */
  function Follow(pids: seq<string>, p: Place, ts: seq<Tagged>): (r: Option<Place>)
    requires p.next <= |pids|
    ensures r.Some? ==> r.value.next <= |pids|
  {
    if ts == [] then Some(p)
    else
      var before := Follow(pids, p, ts[..|ts| - 1]);
      if before.None? then None else FollowOne(pids, before.value, ts[|ts| - 1])
  }

  function FollowOne(pids: seq<string>, p: Place, t: Tagged): (r: Option<Place>)
    requires p.next <= |pids|
    ensures r.Some? ==> r.value.next <= |pids|
  {
    if t.event.Invoke? then
      var next := PastPrecompiles(pids, p.next);
      if next == t.node && next < |pids| && pids[next] == t.pid then Some(Place(p.stack + [next], next + 1)) else None
    else if p.stack == [] || p.stack[|p.stack| - 1] != t.node then None
    else Some(if Ends(t.event) then p.(stack := p.stack[..|p.stack| - 1]) else p)
  }

  lemma {:induction false} FollowConcat(pids: seq<string>, p: Place, a: seq<Tagged>, b: seq<Tagged>)
    requires p.next <= |pids| && Follow(pids, p, a).Some?
    ensures Follow(pids, p, a + b) == Follow(pids, Follow(pids, p, a).value, b)
    decreases b
  {
    hide FollowOne, IsPrecompile;
    if b == [] {
      assert a + b == a;
    } else {
      var b' := b[..|b| - 1];
      FrontOfConcat(a, b);
      FollowConcat(pids, p, a, b');
    }
  }

  lemma FollowNothing(pids: seq<string>, p: Place)
    requires p.next <= |pids|
    ensures Follow(pids, p, []) == Some(p)
  {
  }

  lemma FrontOfConcat<T>(a: seq<T>, b: seq<T>)
    requires b != []
    ensures (a + b)[..|a + b| - 1] == a + b[..|b| - 1] && (a + b)[|a + b| - 1] == b[|b| - 1]
  {
  }

  lemma FollowSingle(pids: seq<string>, p: Place, t: Tagged)
    requires p.next <= |pids|
    ensures Follow(pids, p, [t]) == FollowOne(pids, p, t)
  {
    assert [t][..0] == [];
  }

  /** Only precompiles lie between the cursor and index `i`. */
  predicate Near(pids: seq<string>, next: nat, i: nat) {
    next <= i <= |pids| && forall j :: next <= j < i ==> IsPrecompile(pids[j])
  }

  lemma NearSkip(pids: seq<string>, next: nat, i: nat)
    requires Near(pids, next, i) && i < |pids| && !IsPrecompile(pids[i])
    ensures PastPrecompiles(pids, next) == i
  {
    hide IsPrecompile;
  }

  /** `node i` onwards, the tree's pre-order holds the ids of this call. */
  predicate Placed(pids: seq<string>, i: nat, sub: seq<string>) {
    i + |sub| <= |pids| && pids[i..i + |sub|] == sub
  }

  lemma PlacedSplit(pids: seq<string>, i: nat, a: seq<string>, b: seq<string>)
    requires Placed(pids, i, a + b)
    ensures Placed(pids, i, a) && Placed(pids, i + |a|, b)
  {
    var w := a + b;
    assert pids[i..i + |a|] == w[..|a|] && pids[i + |a|..i + |a| + |b|] == w[|a|..];
  }

  /** A whole call is followed and leaves the open frames as they were, the cursor behind it. */
  lemma {:induction false} FollowCall(pids: seq<string>, c: Call, i: nat, height: nat, p: Place)
    requires Executable(c) && Placed(pids, i, Pids(c)) && Near(pids, p.next, i)
    ensures var r := Follow(pids, p, Emit(c, i, height));
            r.Some? && r.value.stack == p.stack && Near(pids, r.value.next, i + Size(c))
    decreases c, 0
  {
    hide Follow, IsPrecompile;
    PlacedSplit(pids, i, [c.pid], PidsAll(c.items));
    assert pids[i] == c.pid by { assert pids[i..i + 1][0] == c.pid; }
    if !IsPrecompile(c.pid) {
      var first, last := Tagged(i, c.pid, Invoke(height)), Tagged(i, c.pid, c.end);
      var body := EmitAll(c.items, i, c.pid, i + 1, height);
      NearSkip(pids, p.next, i);
      FollowItems(pids, c.items, i, c.pid, i + 1, height, Place(p.stack + [i], i + 1));
      FollowFrame(pids, p, first, body, last);
    } else {
      FollowNothing(pids, p);
      assert SizeAll(c.items) == 0;
    }
  }

  /** A frame opens, its body is followed, and it closes again. */
  lemma FollowFrame(pids: seq<string>, p: Place, first: Tagged, body: seq<Tagged>, last: Tagged)
    requires p.next <= |pids| && PastPrecompiles(pids, p.next) == first.node < |pids| && pids[first.node] == first.pid
    requires first.event.Invoke? && last.node == first.node && Ends(last.event)
    requires var r := Follow(pids, Place(p.stack + [first.node], first.node + 1), body);
             r.Some? && r.value.stack == p.stack + [first.node]
    ensures Follow(pids, p, [first] + body + [last]) ==
            Some(Place(p.stack, Follow(pids, Place(p.stack + [first.node], first.node + 1), body).value.next))
  {
    hide Follow, IsPrecompile;
    var open := Place(p.stack + [first.node], first.node + 1);
    var done := Follow(pids, open, body).value;
    FollowSingle(pids, p, first);
    FollowSingle(pids, done, last);
    FollowConcat(pids, p, [first], body);
    FollowConcat(pids, p, [first] + body, [last]);
    assert (p.stack + [first.node])[..|p.stack|] == p.stack;
  }

  lemma {:induction false} FollowItems(pids: seq<string>, items: seq<Item>, i: nat, pid: string, next: nat, height: nat, p: Place)
    requires AllExecutable(items) && Placed(pids, next, PidsAll(items)) && Near(pids, p.next, next)
    requires p.stack != [] && p.stack[|p.stack| - 1] == i
    ensures var r := Follow(pids, p, EmitAll(items, i, pid, next, height));
            r.Some? && r.value.stack == p.stack && Near(pids, r.value.next, next + SizeAll(items))
    decreases items, 0
  {
    hide Follow, FollowOne, Executable, Emit, Placed, Near, Pids, EmitAll, AllExecutable, PidsAll, SizeAll;
    NearBound(pids, p.next, next);
    if items == [] {
      NoItems(i, pid, next, height);
      FollowNothing(pids, p);
    } else {
      ItemFirst(items, i, pid, next, height);
      match items[0]
      case Own(e) =>
        FollowOwn(pids, p, Tagged(i, pid, e));
        FollowItems(pids, items[1..], i, pid, next, height, p);
        FollowConcat(pids, p, [Tagged(i, pid, e)], EmitAll(items[1..], i, pid, next, height));
      case Sub(c) =>
        PlacedSplit(pids, next, Pids(c), PidsAll(items[1..]));
        FollowCall(pids, c, next, height + 1, p);
        var after := Follow(pids, p, Emit(c, next, height + 1)).value;
        FollowItems(pids, items[1..], i, pid, next + Size(c), height, after);
        FollowConcat(pids, p, Emit(c, next, height + 1), EmitAll(items[1..], i, pid, next + Size(c), height));
    }
  }

  lemma NearBound(pids: seq<string>, next: nat, i: nat)
    requires Near(pids, next, i)
    ensures next <= i <= |pids|
  {
  }

  lemma FollowOwn(pids: seq<string>, p: Place, t: Tagged)
    requires p.next <= |pids| && p.stack != [] && p.stack[|p.stack| - 1] == t.node && !t.event.Invoke? && !Ends(t.event)
    ensures Follow(pids, p, [t]) == Some(p)
  {
    FollowSingle(pids, p, t);
  }

  lemma NoItems(i: nat, pid: string, next: nat, height: nat)
    ensures EmitAll([], i, pid, next, height) == [] && SizeAll([]) == 0
  {
  }

  /** The first of some items, and the others. */
  lemma ItemFirst(items: seq<Item>, i: nat, pid: string, next: nat, height: nat)
    requires items != [] && AllExecutable(items)
    ensures AllExecutable(items[1..]) && (items[0].Sub? ==> items[0].call < items[0])
    ensures match items[0]
            case Own(e) =>
              && !Ends(e) && !e.Invoke? && SizeAll(items) == SizeAll(items[1..]) && PidsAll(items) == PidsAll(items[1..])
              && EmitAll(items, i, pid, next, height) == [Tagged(i, pid, e)] + EmitAll(items[1..], i, pid, next, height)
            case Sub(c) =>
              && Executable(c) && SizeAll(items) == Size(c) + SizeAll(items[1..]) && PidsAll(items) == Pids(c) + PidsAll(items[1..])
              && EmitAll(items, i, pid, next, height)
                 == Emit(c, next, height + 1) + EmitAll(items[1..], i, pid, next + Size(c), height)
  {
    hide Executable, Readable, Emit, Pids, Size;
    assert items[0].Sub? ==> items[0].call < items[0];
  }

  // ----- each node gets its own ---------------------------------------------------------------

  /** The events of one node, in order. */
  function Events(ts: seq<Tagged>, node: nat): seq<Tagged> {
    if ts == [] then []
    else
      var last := ts[|ts| - 1];
      Events(ts[..|ts| - 1], node) + if last.node == node then [last] else []
  }

  /** What a node's own events say about it. */
  function Report(ts: seq<Tagged>): Rec {
    if ts == [] then FRESH
    else
      var last := ts[|ts| - 1];
      Absorb(Report(ts[..|ts| - 1]), Meaning(last.pid, last.event))
  }

  function Meanings(ts: seq<Tagged>): (r: seq<Line>)
    ensures |r| == |ts| && forall i :: 0 <= i < |ts| ==> r[i] == Meaning(ts[i].pid, ts[i].event)
  {
    seq(|ts|, (i: nat) requires i < |ts| => Meaning(ts[i].pid, ts[i].event))
  }

  lemma {:induction false} RunFollows(pids: seq<string>, ts: seq<Tagged>)
    requires Follow(pids, Place([], 0), ts).Some?
    ensures var st, p := Run(pids, Meanings(ts)), Follow(pids, Place([], 0), ts).value;
            && st.aligned && st.stack == p.stack && st.next == p.next
            && forall j :: 0 <= j < |pids| ==> st.recs[j] == Report(Events(ts, j))
  {
    hide Step, FollowOne, Absorb, Meaning, Report, Events;
    if ts == [] {
      NoEvents(pids);
    } else {
      var n := |ts| - 1;
      var before, last := ts[..n], ts[n];
      RunFollows(pids, before);
      assert Meanings(ts)[..n] == Meanings(before);
      StepFollows(pids, Run(pids, Meanings(before)), Follow(pids, Place([], 0), before).value, last);
      forall j | 0 <= j < |pids| ensures Run(pids, Meanings(ts)).recs[j] == Report(Events(ts, j)) {
        EventsLast(ts, j);
      }
    }
  }

  /** One event: the builder moves with it, and only the node it belongs to takes it in. */
  lemma StepFollows(pids: seq<string>, st: State, p: Place, t: Tagged)
    requires Valid(|pids|, st) && st.aligned && st.stack == p.stack && st.next == p.next
    requires FollowOne(pids, p, t).Some?
    ensures var st', p' := Step(pids, st, Meaning(t.pid, t.event)), FollowOne(pids, p, t).value;
            && st'.aligned && st'.stack == p'.stack && st'.next == p'.next
            && forall j :: 0 <= j < |pids| ==>
                 st'.recs[j] == if t.node == j then Absorb(st.recs[j], Meaning(t.pid, t.event)) else st.recs[j]
  {
    hide IsPrecompile, PastPrecompiles;
  }

  lemma NoEvents(pids: seq<string>)
    ensures forall j :: 0 <= j < |pids| ==> Run(pids, Meanings([])).recs[j] == Report(Events([], j))
  {
  }

  lemma EventsLast(ts: seq<Tagged>, j: nat)
    requires ts != []
    ensures var last := ts[|ts| - 1];
            Report(Events(ts, j)) ==
            if last.node == j then Absorb(Report(Events(ts[..|ts| - 1], j)), Meaning(last.pid, last.event))
            else Report(Events(ts[..|ts| - 1], j))
  {
    var last, before := ts[|ts| - 1], Events(ts[..|ts| - 1], j);
    if last.node == j {
      assert (before + [last])[..|before|] == before;
    } else {
      assert before + [] == before;
    }
  }

  lemma {:induction false} FollowPrefix(pids: seq<string>, p: Place, ts: seq<Tagged>, k: nat)
    requires p.next <= |pids| && k <= |ts| && Follow(pids, p, ts).Some?
    ensures Follow(pids, p, ts[..k]).Some?
    decreases ts
  {
    if k == |ts| {
      assert ts[..k] == ts;
    } else {
      var front := ts[..|ts| - 1];
      FollowPrefix(pids, p, front, k);
      assert front[..k] == ts[..k];
    }
  }

  function Printed(ts: seq<Tagged>, encode: seq<Byte> -> string): (r: seq<string>)
    ensures |r| == |ts| && forall i :: 0 <= i < |ts| ==> r[i] == Print(ts[i].pid, ts[i].event, encode)
  {
    seq(|ts|, (i: nat) requires i < |ts| => Print(ts[i].pid, ts[i].event, encode))
  }

  /** Every event of the stream is readable and about a proper program id. */
  predicate AllReadable(ts: seq<Tagged>) {
    forall i :: 0 <= i < |ts| ==> ProgramId(ts[i].pid) && Readable(ts[i].event)
  }

  lemma {:induction false} EmitReadable(c: Call, i: nat, height: nat)
    requires Executable(c)
    ensures AllReadable(Emit(c, i, height))
    decreases c, 0
  {
    hide IsPrecompile, ProgramId;
    if !IsPrecompile(c.pid) { EmitAllReadable(c.items, i, c.pid, i + 1, height); }
  }

  lemma {:induction false} EmitAllReadable(items: seq<Item>, i: nat, pid: string, next: nat, height: nat)
    requires AllExecutable(items) && ProgramId(pid)
    ensures AllReadable(EmitAll(items, i, pid, next, height))
    decreases items, 0
  {
    hide IsPrecompile, ProgramId, Readable;
    if items != [] {
      assert items[0].Sub? ==> items[0].call < items[0];
      match items[0]
      case Own(e) => EmitAllReadable(items[1..], i, pid, next, height);
      case Sub(c) =>
        EmitReadable(c, next, height + 1);
        EmitAllReadable(items[1..], i, pid, next + Size(c), height);
    }
  }

  lemma LinesPrinted(ts: seq<Tagged>, decode: string -> Option<seq<Byte>>, encode: seq<Byte> -> string)
    requires AllReadable(ts) && Base64(encode, decode)
    ensures Lines(Printed(ts, encode), decode) == Meanings(ts)
  {
    forall i | 0 <= i < |ts| ensures Classify(Printed(ts, encode)[i], decode) == Meanings(ts)[i] {
      EventRead(ts[i].pid, ts[i].event, decode, encode);
    }
  }

  /** The top-level instructions of a transaction, as items of a node that logs nothing. */
  function Stream(calls: seq<Call>, next: nat): seq<Tagged> {
    if calls == [] then [] else Emit(calls[0], next, 1) + Stream(calls[1..], next + Size(calls[0]))
  }

  function TreePids(calls: seq<Call>): seq<string> {
    if calls == [] then [] else Pids(calls[0]) + TreePids(calls[1..])
  }

  lemma {:induction false} FollowStream(pids: seq<string>, calls: seq<Call>, i: nat, p: Place)
    requires (forall k :: 0 <= k < |calls| ==> Executable(calls[k]))
    requires Placed(pids, i, TreePids(calls)) && Near(pids, p.next, i)
    ensures Follow(pids, p, Stream(calls, i)).Some?
    decreases calls
  {
    hide Follow, Executable, Placed, Emit, IsPrecompile, Readable, ProgramId;
    if calls == [] {
      FollowNothing(pids, p);
    } else {
      PlacedSplit(pids, i, Pids(calls[0]), TreePids(calls[1..]));
      FollowCall(pids, calls[0], i, 1, p);
      var after := Follow(pids, p, Emit(calls[0], i, 1)).value;
      FollowStream(pids, calls[1..], i + Size(calls[0]), after);
      FollowConcat(pids, p, Emit(calls[0], i, 1), Stream(calls[1..], i + Size(calls[0])));
    }
  }

  lemma {:induction false} StreamReadable(calls: seq<Call>, i: nat)
    requires forall k :: 0 <= k < |calls| ==> Executable(calls[k])
    ensures AllReadable(Stream(calls, i))
    decreases calls
  {
    hide Executable, Emit, Readable, ProgramId;
    if calls != [] {
      EmitReadable(calls[0], i, 1);
      StreamReadable(calls[1..], i + Size(calls[0]));
    }
  }

  /** Whatever forest of calls was executed, whatever nodes `rest` of instructions never run stand
      behind it, and wherever its log stream was cut off, each node's record is exactly what its own
      events up to there report. */
  lemma AttributionInvertsEmission(calls: seq<Call>, rest: seq<string>, k: nat,
                                   decode: string -> Option<seq<Byte>>, encode: seq<Byte> -> string)
    requires (forall j :: 0 <= j < |calls| ==> Executable(calls[j])) && Base64(encode, decode)
    requires k <= |Stream(calls, 0)|
    ensures var pids, seen := TreePids(calls) + rest, Stream(calls, 0)[..k];
            var st := Run(pids, Lines(Printed(seen, encode), decode));
            && st.aligned
            && forall j :: 0 <= j < |pids| ==> st.recs[j] == Report(Events(seen, j))
  {
    var pids, seen := TreePids(calls) + rest, Stream(calls, 0)[..k];
    assert pids[0..|TreePids(calls)|] == TreePids(calls);
    FollowStream(pids, calls, 0, Place([], 0));
    StreamReadable(calls, 0);
    FollowPrefix(pids, Place([], 0), Stream(calls, 0), k);
    LinesPrinted(seen, decode, encode);
    RunFollows(pids, seen);
  }

  // ----- the complete stream ------------------------------------------------------------------

  /** What a node logged itself, straight from its items. */
  function Owns(items: seq<Item>, i: nat, pid: string): seq<Tagged> {
    if items == [] then []
    else (if items[0].Own? then [Tagged(i, pid, items[0].event)] else []) + Owns(items[1..], i, pid)
  }

  /** For each node of a call in pre-order: its opening, its own events, its end. */
  function Expect(c: Call, i: nat, height: nat): (r: seq<seq<Tagged>>)
    ensures |r| == Size(c)
    decreases c, 0
  {
    var own := if IsPrecompile(c.pid) then []
               else [Tagged(i, c.pid, Invoke(height))] + Owns(c.items, i, c.pid) + [Tagged(i, c.pid, c.end)];
    [own] + ExpectAll(c.items, i + 1, height)
  }

  function ExpectAll(items: seq<Item>, next: nat, height: nat): (r: seq<seq<Tagged>>)
    ensures |r| == SizeAll(items)
    decreases items, 0
  {
    if items == [] then []
    else
      assert items[0].Sub? ==> items[0].call < items[0];
      match items[0]
      case Own(_) => ExpectAll(items[1..], next, height)
      case Sub(c) => Expect(c, next, height + 1) + ExpectAll(items[1..], next + Size(c), height)
  }

  lemma {:induction false} EventsConcat(a: seq<Tagged>, b: seq<Tagged>, j: nat)
    ensures Events(a + b, j) == Events(a, j) + Events(b, j)
    decreases b
  {
    if b == [] {
      assert a + b == a;
    } else {
      FrontOfConcat(a, b);
      EventsConcat(a, b[..|b| - 1], j);
    }
  }

  lemma EventsSingle(t: Tagged, j: nat)
    ensures Events([t], j) == if t.node == j then [t] else []
  {
    assert [t][..0] == [];
  }

  /** The part of a list of records that starts at `i`, looked up by index. */
  function Lookup(r: seq<seq<Tagged>>, i: nat, j: nat): seq<Tagged> {
    if i <= j < i + |r| then r[j - i] else []
  }

  lemma LookupBelow(r: seq<seq<Tagged>>, i: nat, j: nat)
    requires j < i || r == []
    ensures Lookup(r, i, j) == []
  {
  }

  lemma LookupConcat(a: seq<seq<Tagged>>, b: seq<seq<Tagged>>, i: nat, j: nat)
    ensures Lookup(a + b, i, j) == Lookup(a, i, j) + Lookup(b, i + |a|, j)
  {
  }

  lemma EventsNothing(j: nat)
    ensures Events([], j) == []
  {
  }

  lemma {:induction false} EmitExpect(c: Call, i: nat, height: nat, j: nat)
    requires Executable(c)
    ensures Events(Emit(c, i, height), j) == Lookup(Expect(c, i, height), i, j)
    decreases c, 0
  {
    hide Executable, IsPrecompile, Events;
    if IsPrecompile(c.pid) {
      SilentExpect(c, i, height, j);
    } else {
      var first, last := Tagged(i, c.pid, Invoke(height)), Tagged(i, c.pid, c.end);
      var body := EmitAll(c.items, i, c.pid, i + 1, height);
      EventsConcat([first], body, j);
      EventsConcat([first] + body, [last], j);
      EventsSingle(first, j);
      EventsSingle(last, j);
      ItemsExecutable(c);
      EmitAllExpect(c.items, i, c.pid, i + 1, height, j);
    }
  }

  lemma ItemsExecutable(c: Call)
    requires Executable(c)
    ensures AllExecutable(c.items)
  {
  }

  lemma SilentExpect(c: Call, i: nat, height: nat, j: nat)
    requires Executable(c) && IsPrecompile(c.pid)
    ensures Events(Emit(c, i, height), j) == Lookup(Expect(c, i, height), i, j) == []
  {
    hide IsPrecompile;
  }

  lemma {:induction false} EmitAllExpect(items: seq<Item>, i: nat, pid: string, next: nat, height: nat, j: nat)
    requires AllExecutable(items) && i < next
    ensures Events(EmitAll(items, i, pid, next, height), j) ==
            if j == i then Owns(items, i, pid) else Lookup(ExpectAll(items, next, height), next, j)
    decreases items, 0
  {
    hide Executable, Readable, IsPrecompile, Emit, Expect, Events, Lookup;
    LookupBelow(ExpectAll(items, next, height), next, i);
    if items == [] {
      EventsNothing(j);
      LookupBelow([], next, j);
    } else {
      assert items[0].Sub? ==> items[0].call < items[0];
      match items[0]
      case Own(e) =>
        EmitAllExpect(items[1..], i, pid, next, height, j);
        EventsConcat([Tagged(i, pid, e)], EmitAll(items[1..], i, pid, next, height), j);
        EventsSingle(Tagged(i, pid, e), j);
      case Sub(c) =>
        EmitExpect(c, next, height + 1, j);
        LookupBelow(Expect(c, next, height + 1), next, i);
        LookupConcat(Expect(c, next, height + 1), ExpectAll(items[1..], next + Size(c), height), next, j);
        EmitAllExpect(items[1..], i, pid, next + Size(c), height, j);
        EventsConcat(Emit(c, next, height + 1), EmitAll(items[1..], i, pid, next + Size(c), height), j);
    }
  }

  function ExpectStream(calls: seq<Call>, next: nat): seq<seq<Tagged>> {
    if calls == [] then [] else Expect(calls[0], next, 1) + ExpectStream(calls[1..], next + Size(calls[0]))
  }

  lemma {:induction false} StreamExpect(calls: seq<Call>, i: nat, j: nat)
    requires forall k :: 0 <= k < |calls| ==> Executable(calls[k])
    ensures Events(Stream(calls, i), j) == Lookup(ExpectStream(calls, i), i, j)
    decreases calls
  {
    hide Executable, Emit, Expect, Events, Lookup;
    if calls == [] {
      EventsNothing(j);
      LookupBelow([], i, j);
    } else {
      var next := i + Size(calls[0]);
      EmitExpect(calls[0], i, 1, j);
      StreamExpect(calls[1..], next, j);
      EventsConcat(Emit(calls[0], i, 1), Stream(calls[1..], next), j);
      LookupConcat(Expect(calls[0], i, 1), ExpectStream(calls[1..], next), i, j);
    }
  }

  lemma {:induction false} ExpectSize(calls: seq<Call>, i: nat)
    ensures |ExpectStream(calls, i)| == |TreePids(calls)|
  {
    if calls != [] { ExpectSize(calls[1..], i + Size(calls[0])); }
  }

  /** With the whole stream, each node's record reports exactly its own items and its end; a
      precompile's stays empty, and so does that of an instruction that never ran. */
  lemma CompleteAttribution(calls: seq<Call>, rest: seq<string>, decode: string -> Option<seq<Byte>>, encode: seq<Byte> -> string)
    requires (forall j :: 0 <= j < |calls| ==> Executable(calls[j])) && Base64(encode, decode)
    ensures var ran, pids, expected := |TreePids(calls)|, TreePids(calls) + rest, ExpectStream(calls, 0);
            var recs := Run(pids, Lines(Printed(Stream(calls, 0), encode), decode)).recs;
            && |expected| == ran && |pids| == |recs|
            && (forall j :: 0 <= j < ran ==> recs[j] == Report(expected[j]))
            && (forall j :: ran <= j < |recs| ==> recs[j] == FRESH)
  {
    hide Executable, Run;
    var pids, all := TreePids(calls) + rest, Stream(calls, 0);
    assert all[..|all|] == all;
    AttributionInvertsEmission(calls, rest, |all|, decode, encode);
    ExpectSize(calls, 0);
    forall j | 0 <= j < |pids|
      ensures Run(pids, Lines(Printed(all, encode), decode)).recs[j] == Report(Lookup(ExpectStream(calls, 0), 0, j))
    {
      StreamExpect(calls, 0, j);
    }
    NothingReported();
  }

  lemma NothingReported()
    ensures Report([]) == FRESH
  {
  }
}
