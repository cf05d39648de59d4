/** The events of an execution, and how many of them its trace shows. */
module ExecutionEvents {
  import opened Wrappers
  import opened Bytes
  import Text
  import opened LogLines
  import opened CallTree
  import opened Attribution
  import opened Emission
  import opened EventHoist
  import opened HoistLoss
  import opened TraceBuild

  // ----- what an execution emits --------------------------------------------------------------

  /** Every event a call's programs emitted, nothing skipped: what was logged with `emit!`, and the
      payload of every self-CPI of `emit_cpi!`. */
  function Said(c: Call): Emitted
    decreases c, 0
  {
    SaidAll(Ix(c.pid, c.data), c.items)
  }

  function SaidAll(caller: Ix, items: seq<Item>): Emitted
    decreases items, 0
  {
    if items == [] then multiset{}
    else
      assert items[0].Sub? ==> items[0].call < items[0];
      (match items[0]
       case Own(e) => Shown(caller.pid, e)
       case Sub(c) => CpiPayload(caller, Ix(c.pid, c.data)) + Said(c))
      + SaidAll(caller, items[1..])
  }

  /** What a log line adds to the events of its program. */
  function DataOf(e: Event): seq<seq<Byte>> {
    if e.Data? && FirstChunk(e.chunks).Some? then [FirstChunk(e.chunks).value] else []
  }

  function Shown(pid: string, e: Event): Emitted {
    if DataOf(e) == [] then multiset{} else multiset{(pid, DataOf(e)[0])}
  }

  /** Nothing is emitted in this call or below it. */
  predicate SilentCall(c: Call)
    decreases c, 0
  {
    SilentItems(Ix(c.pid, c.data), c.items)
  }

  predicate SilentItems(caller: Ix, items: seq<Item>)
    decreases items, 0
  {
    items == [] ||
    (assert items[0].Sub? ==> items[0].call < items[0];
     && SilentItems(caller, items[1..])
     && match items[0]
        case Own(e) => DataOf(e) == []
        case Sub(c) => !IsEvent(caller, Ix(c.pid, c.data)) && SilentCall(c))
  }

  /** No event CPI of this execution emits anything in it or below it. */
  predicate MuteCall(c: Call)
    decreases c, 0
  {
    MuteItems(Ix(c.pid, c.data), c.items)
  }

  predicate MuteItems(caller: Ix, items: seq<Item>)
    decreases items, 0
  {
    items == [] ||
    (assert items[0].Sub? ==> items[0].call < items[0];
     && MuteItems(caller, items[1..])
     && (items[0].Sub? ==>
           var c := items[0].call;
           if IsEvent(caller, Ix(c.pid, c.data)) then SilentCall(c) else MuteCall(c)))
  }

  function DataIn(ts: seq<Tagged>): seq<seq<Byte>> {
    if ts == [] then [] else DataIn(ts[..|ts| - 1]) + DataOf(ts[|ts| - 1].event)
  }

  lemma {:induction false} ReportData(ts: seq<Tagged>)
    ensures Report(ts).events == DataIn(ts)
  {
    if ts != [] {
      hide Absorb, Meaning;
      ReportData(ts[..|ts| - 1]);
      AbsorbData(Report(ts[..|ts| - 1]), ts[|ts| - 1].pid, ts[|ts| - 1].event);
    }
  }

  lemma AbsorbData(r: Rec, pid: string, e: Event)
    ensures Absorb(r, Meaning(pid, e)).events == r.events + DataOf(e)
  {
    hide FirstChunk, Text.TrimEnd, Text.Trim, Text.Blank;
  }

  lemma {:induction false} DataConcat(a: seq<Tagged>, b: seq<Tagged>)
    ensures DataIn(a + b) == DataIn(a) + DataIn(b)
    decreases |b|
  {
    if b == [] {
      assert a + b == a;
    } else {
      FrontOfConcat(a, b);
      DataConcat(a, b[..|b| - 1]);
    }
  }

  lemma DataOne(t: Tagged)
    ensures DataIn([t]) == DataOf(t.event)
  {
    assert [t][..0] == [];
  }

  lemma OwnEvents(c: Call, height: nat)
    requires Executable(c)
    ensures OwnRecord(c, height).events == DataIn(Owns(c.items, 0, c.pid))
  {
    hide IsPrecompile, Report, DataIn;
    if IsPrecompile(c.pid) {
      assert DataIn([]) == [] by { NoData(); }
    } else {
      var first, own, last := Tagged(0, c.pid, Invoke(height)), Owns(c.items, 0, c.pid), Tagged(0, c.pid, c.end);
      ReportData([first] + own + [last]);
      DataConcat([first] + own, [last]);
      DataConcat([first], own);
      DataOne(first);
      DataOne(last);
    }
  }

  lemma NoData()
    ensures DataIn([]) == []
  {
  }

  lemma NothingBy(pid: string)
    ensures By(pid, []) == multiset{}
  {
  }

  lemma {:induction false} SaidIs(c: Call, height: nat)
    requires Executable(c)
    ensures Every(Traced(c, height)) == Said(c)
    decreases c, 0
  {
    hide IsPrecompile, IsEvent, DataIn, OwnRecord, By;
    OwnEvents(c, height);
    SaidAllIs(Ix(c.pid, c.data), c.items, height + 1);
  }

  lemma {:induction false} SaidAllIs(caller: Ix, items: seq<Item>, height: nat)
    requires AllExecutable(items)
    ensures By(caller.pid, DataIn(Owns(items, 0, caller.pid))) + EveryBelow(caller, TracedAll(items, height))
            == SaidAll(caller, items)
    decreases items, 0
  {
    if items == [] {
      NoData();
      NothingBy(caller.pid);
    } else {
      hide IsEvent, DataIn, By, Said, SaidAll, Traced, TracedAll, Owns, Every, EveryBelow, Readable, Executable, DataOf, Shown, CpiPayload;
      assert items[0].Sub? ==> items[0].call < items[0];
      SaidAllIs(caller, items[1..], height);
      var own, below := By(caller.pid, DataIn(Owns(items[1..], 0, caller.pid))), EveryBelow(caller, TracedAll(items[1..], height));
      if items[0].Own? {
        OwnItem(caller, items, height);
        OwnFirst(caller.pid, items[0].event, Owns(items[1..], 0, caller.pid));
        Shuffle(Shown(caller.pid, items[0].event), own, below);
      } else {
        var c := items[0].call;
        SubItem(caller, items, height);
        TracedFirst(caller, c, height, TracedAll(items[1..], height));
        SaidIs(c, height);
        Shuffle(CpiPayload(caller, Ix(c.pid, c.data)) + Said(c), own, below);
      }
    }
  }

  lemma Shuffle<T>(x: multiset<T>, a: multiset<T>, b: multiset<T>)
    ensures (x + a) + b == x + (a + b) && a + (x + b) == x + (a + b)
  {
  }

  lemma OwnItem(caller: Ix, items: seq<Item>, height: nat)
    requires items != [] && items[0].Own?
    ensures Owns(items, 0, caller.pid) == [Tagged(0, caller.pid, items[0].event)] + Owns(items[1..], 0, caller.pid)
    ensures TracedAll(items, height) == TracedAll(items[1..], height)
    ensures SaidAll(caller, items) == Shown(caller.pid, items[0].event) + SaidAll(caller, items[1..])
  {
    hide IsEvent, Traced, Said, Shown;
  }

  lemma SubItem(caller: Ix, items: seq<Item>, height: nat)
    requires items != [] && items[0].Sub?
    ensures var c := items[0].call;
            && Owns(items, 0, caller.pid) == Owns(items[1..], 0, caller.pid)
            && TracedAll(items, height) == [Traced(c, height)] + TracedAll(items[1..], height)
            && SaidAll(caller, items) == CpiPayload(caller, Ix(c.pid, c.data)) + Said(c) + SaidAll(caller, items[1..])
  {
    hide Traced, Said, CpiPayload;
    assert [] + Owns(items[1..], 0, caller.pid) == Owns(items[1..], 0, caller.pid);
  }

  lemma OwnFirst(pid: string, e: Event, own: seq<Tagged>)
    ensures By(pid, DataIn([Tagged(0, pid, e)] + own)) == Shown(pid, e) + By(pid, DataIn(own))
  {
    DataConcat([Tagged(0, pid, e)], own);
    DataOne(Tagged(0, pid, e));
    TaggedConcat(pid, DataOf(e), DataIn(own));
    if DataOf(e) == [] { NothingBy(pid); } else { TaggedOne(pid, DataOf(e)[0]); }
  }

  lemma TracedFirst(caller: Ix, c: Call, height: nat, rest: seq<Tree<Node>>)
    ensures EveryBelow(caller, [Traced(c, height)] + rest) ==
            CpiPayload(caller, Ix(c.pid, c.data)) + Every(Traced(c, height)) + EveryBelow(caller, rest)
  {
    hide Every, OwnRecord, CpiPayload;
    assert ([Traced(c, height)] + rest)[1..] == rest;
  }

  // ----- which executions lose nothing --------------------------------------------------------

  lemma {:induction false} SilentCallIff(c: Call)
    ensures Said(c) == multiset{} <==> SilentCall(c)
    decreases c, 0
  {
    SilentItemsIff(Ix(c.pid, c.data), c.items);
  }

  lemma {:induction false} SilentItemsIff(caller: Ix, items: seq<Item>)
    ensures SaidAll(caller, items) == multiset{} <==> SilentItems(caller, items)
    decreases items, 0
  {
    if items != [] {
      hide IsEvent, Said, SilentCall, DataOf, CpiPayload;
      assert items[0].Sub? ==> items[0].call < items[0];
      SilentItemsIff(caller, items[1..]);
      match items[0]
      case Own(e) =>
        NothingIn(Shown(caller.pid, e), SaidAll(caller, items[1..]));
        assert DataOf(e) != [] ==> (caller.pid, DataOf(e)[0]) in Shown(caller.pid, e);
      case Sub(c) =>
        SilentCallIff(c);
        PayloadIff(caller, Ix(c.pid, c.data));
        NothingIn(CpiPayload(caller, Ix(c.pid, c.data)), Said(c));
        NothingIn(CpiPayload(caller, Ix(c.pid, c.data)) + Said(c), SaidAll(caller, items[1..]));
    }
  }

  lemma {:induction false} MuteCallIff(c: Call, height: nat)
    requires Executable(c)
    ensures Mute(Traced(c, height)) <==> MuteCall(c)
    decreases c, 0
  {
    hide IsPrecompile, OwnRecord;
    MuteItemsIff(Ix(c.pid, c.data), c.items, height + 1);
  }

  lemma {:induction false} MuteItemsIff(caller: Ix, items: seq<Item>, height: nat)
    requires AllExecutable(items)
    ensures MuteBelow(caller, TracedAll(items, height)) <==> MuteItems(caller, items)
    decreases items, 0
  {
    if items != [] {
      hide IsEvent, Traced, Silent, SilentCall, Mute, MuteCall, Readable, Executable;
      assert items[0].Sub? ==> items[0].call < items[0];
      MuteItemsIff(caller, items[1..], height);
      var rest := TracedAll(items[1..], height);
      if items[0].Sub? {
        var c := items[0].call;
        SilentTraced(c, height);
        MuteCallIff(c, height);
        TracedIx(c, height);
        assert ([Traced(c, height)] + rest)[1..] == rest;
      } else {
        assert [] + rest == rest;
      }
    }
  }

  lemma TracedIx(c: Call, height: nat)
    ensures Traced(c, height).frame.ix == Ix(c.pid, c.data)
  {
  }

  lemma SilentTraced(c: Call, height: nat)
    requires Executable(c)
    ensures Silent(Traced(c, height)) <==> SilentCall(c)
  {
    hide Silent, SilentCall, Every, Said, Traced, Executable;
    SilentIff(Traced(c, height));
    SilentCallIff(c);
    SaidIs(c, height);
  }

  /** The flat list of events of a whole log stream's trace holds every event the programs emitted,
      each with its program, if and only if no event CPI emits anything in it or below it; and never
      any other. */
  lemma EventsOfExecution(calls: seq<Call>, k: nat)
    requires k < |calls| && Executable(calls[k])
    ensures var shown := multiset(Rollup(Preorder(HoistAll(TopTraced(calls))[k])));
            shown <= Said(calls[k]) && (shown == Said(calls[k]) <==> MuteCall(calls[k]))
  {
    hide Rollup, Said, Hoist, Traced, EventsOf, Every, Lost, Settled, Mute, MuteCall, Executable;
    var t := Traced(calls[k], 1);
    HoistKeeps(t);
    RollupIs(Hoist(t));
    EverySplits(Hoist(t));
    SettledMute(Hoist(t));
    MuteIff(Hoist(t));
    HoistEventsIff(t);
    SaidIs(calls[k], 1);
    MuteCallIff(calls[k], 1);
  }

  /** An event CPI that logs an event of its own, and the call around it. */
  function Chatty(p: string): Call {
    Call(p, EVENT_TAG + seq(8, _ => 0), [Own(Data([[1]]))], Succeed)
  }

  function Around(p: string): Call {
    Call(p, [], [Sub(Chatty(p))], Succeed)
  }

  /** The input that shows it: the event logged in the event CPI is emitted, but not shown. */
  lemma EventLost(p: string)
    requires ProgramId(p) && !IsPrecompile(p)
    ensures var c := Around(p);
            Executable(c) && (p, [1]) in Said(c) && (p, [1]) !in multiset(Rollup(Preorder(Hoist(Traced(c, 1)))))
  {
    hide IsPrecompile, ProgramId, Said, Rollup, Preorder, Hoist, Traced;
    ChattySaid(p);
    AroundTraced(p);
    AroundExecutable(p);
    OnlyPayload(Traced(Around(p), 1), Traced(Chatty(p), 2));
    assert Chatty(p).data[8..] != [1] by { assert |Chatty(p).data[8..]| == 8; }
  }

  lemma AroundExecutable(p: string)
    requires ProgramId(p) && !IsPrecompile(p)
    ensures Executable(Around(p))
  {
    hide IsPrecompile, ProgramId;
    assert Chatty(p).items[1..] == [] && Around(p).items[1..] == [];
    assert AllExecutable(Chatty(p).items[1..]) && AllExecutable(Chatty(p).items);
    assert Executable(Chatty(p));
    assert AllExecutable(Around(p).items[1..]) && AllExecutable(Around(p).items);
  }

  lemma ChattySaid(p: string)
    ensures (p, [1]) in Said(Around(p))
  {
    hide IsEvent, CpiPayload;
    assert Chatty(p).items[1..] == [] && Around(p).items[1..] == [];
    assert FirstChunk([[1]]) == Some([1]);
    assert (p, [1]) in Shown(p, Data([[1]]));
    assert (p, [1]) in Said(Chatty(p));
  }

  lemma AroundTraced(p: string)
    requires !IsPrecompile(p) && ProgramId(p)
    ensures var t, child := Traced(Around(p), 1), Traced(Chatty(p), 2);
            && t.children == [child] && t.frame.ix == Ix(p, []) && child.frame.ix == Ix(p, Chatty(p).data)
            && t.frame.rec.events == [] && IsEvent(t.frame.ix, child.frame.ix)
  {
    hide IsPrecompile, ProgramId, OwnRecord;
    var c := Around(p);
    AroundExecutable(p);
    assert c.items[1..] == [] && TracedAll(c.items[1..], 2) == [];
    assert TracedAll(c.items, 2) == [Traced(Chatty(p), 2)] + [];
    assert Chatty(p).data[..8] == EVENT_TAG;
    OwnEvents(c, 1);
    assert Owns(c.items, 0, p) == [] + [];
    NoData();
  }

  /** A node without events of its own whose only child is an event CPI shows that event alone. */
  lemma OnlyPayload(t: Tree<Node>, child: Tree<Node>)
    requires t.children == [child] && IsEvent(t.frame.ix, child.frame.ix) && t.frame.rec.events == []
    ensures multiset(Rollup(Preorder(Hoist(t)))) == multiset{(t.frame.ix.pid, child.frame.ix.data[8..])}
  {
    hide IsEvent, Rollup, Preorder, Hoist, Settled;
    EventData(t.frame.ix, child.frame.ix);
    HoistKeeps(t);
    RollupIs(Hoist(t));
    NothingBy(t.frame.ix.pid);
    assert [child][1..] == [] && EventsBelow(t.frame.ix, []) == multiset{};
    assert EventsBelow(t.frame.ix, [child]) == multiset{(t.frame.ix.pid, child.frame.ix.data[8..])} + multiset{};
  }
}
