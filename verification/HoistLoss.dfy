/** What hoisting takes away: an event CPI is dropped with the events logged in it and with
    everything below it. */
module HoistLoss {
  import opened Bytes
  import opened CallTree
  import opened Attribution
  import opened EventHoist

  // ----- events -------------------------------------------------------------------------------

  /** Every event of a tree, nothing skipped: what each node logged, and the payload of each event
      CPI. */
  function Every(t: Tree<Node>): Emitted
    decreases t, 0
  {
    By(t.frame.ix.pid, t.frame.rec.events) + EveryBelow(t.frame.ix, t.children)
  }

  function EveryBelow(parent: Ix, ts: seq<Tree<Node>>): Emitted
    decreases ts, 0
  {
    if ts == [] then multiset{}
    else CpiPayload(parent, ts[0].frame.ix) + Every(ts[0]) + EveryBelow(parent, ts[1..])
  }

  function CpiPayload(parent: Ix, child: Ix): Emitted {
    if IsEvent(parent, child) then multiset{(parent.pid, child.data[8..])} else multiset{}
  }

  /** The events in and below event CPIs. */
  function Lost(t: Tree<Node>): Emitted
    decreases t, 0
  {
    LostBelow(t.frame.ix, t.children)
  }

  function LostBelow(parent: Ix, ts: seq<Tree<Node>>): Emitted
    decreases ts, 0
  {
    if ts == [] then multiset{}
    else (if IsEvent(parent, ts[0].frame.ix) then Every(ts[0]) else Lost(ts[0])) + LostBelow(parent, ts[1..])
  }

  lemma {:induction false} EverySplits(t: Tree<Node>)
    ensures Every(t) == EventsOf(t) + Lost(t)
    decreases t, 0
  {
    hide IsEvent, By;
    EveryBelowSplits(t.frame.ix, t.children);
  }

  lemma {:induction false} EveryBelowSplits(parent: Ix, ts: seq<Tree<Node>>)
    ensures EveryBelow(parent, ts) == EventsBelow(parent, ts) + LostBelow(parent, ts)
    decreases ts, 0
  {
    hide IsEvent, Every, EventsOf, Lost;
    if ts != [] {
      EveryBelowSplits(parent, ts[1..]);
      var below, lost := EventsBelow(parent, ts[1..]), LostBelow(parent, ts[1..]);
      if IsEvent(parent, ts[0].frame.ix) {
        EventData(parent, ts[0].frame.ix);
        Rearrange(multiset{(parent.pid, ts[0].frame.ix.data[8..])}, Every(ts[0]), below, lost);
      } else {
        EverySplits(ts[0]);
        Rearrange(EventsOf(ts[0]), Lost(ts[0]), below, lost);
        assert multiset{} + Every(ts[0]) == Every(ts[0]);
      }
    }
  }

  lemma Rearrange<T>(a: multiset<T>, b: multiset<T>, c: multiset<T>, d: multiset<T>)
    ensures (a + b) + (c + d) == (a + c) + (b + d)
  {
  }

  /** No event in this tree: nothing logged, and no event CPI. */
  predicate Silent(t: Tree<Node>)
    decreases t, 0
  {
    t.frame.rec.events == [] && SilentBelow(t.frame.ix, t.children)
  }

  predicate SilentBelow(parent: Ix, ts: seq<Tree<Node>>)
    decreases ts, 0
  {
    ts == [] || (!IsEvent(parent, ts[0].frame.ix) && Silent(ts[0]) && SilentBelow(parent, ts[1..]))
  }

  /** No event CPI has an event in it or below it. */
  predicate Mute(t: Tree<Node>)
    decreases t, 0
  {
    MuteBelow(t.frame.ix, t.children)
  }

  predicate MuteBelow(parent: Ix, ts: seq<Tree<Node>>)
    decreases ts, 0
  {
    ts == [] || ((if IsEvent(parent, ts[0].frame.ix) then Silent(ts[0]) else Mute(ts[0])) && MuteBelow(parent, ts[1..]))
  }

  lemma NothingIn<T>(a: multiset<T>, b: multiset<T>)
    ensures a + b == multiset{} <==> a == multiset{} && b == multiset{}
  {
    assert |a + b| == |a| + |b|;
  }

  lemma {:induction false} BySilent(pid: string, events: seq<seq<Byte>>)
    ensures By(pid, events) == multiset{} <==> events == []
  {
    if events != [] { assert (pid, events[|events| - 1]) in By(pid, events); }
  }

  lemma {:induction false} SilentIff(t: Tree<Node>)
    ensures Every(t) == multiset{} <==> Silent(t)
    decreases t, 0
  {
    hide IsEvent, By;
    BySilent(t.frame.ix.pid, t.frame.rec.events);
    SilentBelowIff(t.frame.ix, t.children);
    NothingIn(By(t.frame.ix.pid, t.frame.rec.events), EveryBelow(t.frame.ix, t.children));
  }

  lemma {:induction false} SilentBelowIff(parent: Ix, ts: seq<Tree<Node>>)
    ensures EveryBelow(parent, ts) == multiset{} <==> SilentBelow(parent, ts)
    decreases ts, 0
  {
    hide IsEvent, Every, Silent, CpiPayload;
    if ts != [] {
      SilentIff(ts[0]);
      SilentBelowIff(parent, ts[1..]);
      NothingIn(CpiPayload(parent, ts[0].frame.ix), Every(ts[0]));
      NothingIn(CpiPayload(parent, ts[0].frame.ix) + Every(ts[0]), EveryBelow(parent, ts[1..]));
      PayloadIff(parent, ts[0].frame.ix);
    }
  }

  lemma PayloadIff(parent: Ix, child: Ix)
    ensures CpiPayload(parent, child) == multiset{} <==> !IsEvent(parent, child)
  {
    if IsEvent(parent, child) { assert (parent.pid, child.data[8..]) in CpiPayload(parent, child); }
  }

  lemma {:induction false} MuteIff(t: Tree<Node>)
    ensures Lost(t) == multiset{} <==> Mute(t)
    decreases t, 0
  {
    hide IsEvent;
    MuteBelowIff(t.frame.ix, t.children);
  }

  lemma {:induction false} MuteBelowIff(parent: Ix, ts: seq<Tree<Node>>)
    ensures LostBelow(parent, ts) == multiset{} <==> MuteBelow(parent, ts)
    decreases ts, 0
  {
    hide IsEvent, Every, Silent, Lost, Mute;
    if ts != [] {
      MuteBelowIff(parent, ts[1..]);
      SilentIff(ts[0]);
      MuteIff(ts[0]);
      NothingIn(if IsEvent(parent, ts[0].frame.ix) then Every(ts[0]) else Lost(ts[0]), LostBelow(parent, ts[1..]));
    }
  }

  lemma {:induction false} SettledMute(t: Tree<Node>)
    requires Settled(t)
    ensures Mute(t)
    decreases t, 0
  {
    hide IsEvent;
    SettledMuteBelow(t.frame.ix, t.children);
  }

  lemma {:induction false} SettledMuteBelow(parent: Ix, ts: seq<Tree<Node>>)
    requires SettledBelow(parent, ts)
    ensures MuteBelow(parent, ts)
    decreases ts, 0
  {
    hide IsEvent, Settled, Mute;
    if ts != [] {
      SettledMute(ts[0]);
      SettledMuteBelow(parent, ts[1..]);
    }
  }

  /** Hoisting takes away exactly the events in and below event CPIs: it keeps every event if and only
      if there are none. */
  lemma HoistEventsIff(t: Tree<Node>)
    ensures Every(Hoist(t)) + Lost(t) == Every(t)
    ensures Every(Hoist(t)) == Every(t) <==> Mute(t)
  {
    hide Every, EventsOf, Lost, Settled, Mute, Hoist;
    HoistKeeps(t);
    EverySplits(t);
    EverySplits(Hoist(t));
    SettledMute(Hoist(t));
    MuteIff(Hoist(t));
    MuteIff(t);
    assert EventsOf(t) + multiset{} == EventsOf(t);
    NoneLost(Every(Hoist(t)), Lost(t));
  }

  lemma NoneLost<T>(a: multiset<T>, b: multiset<T>)
    ensures a == a + b <==> b == multiset{}
  {
    assert |a + b| == |a| + |b|;
  }

  // ----- calls --------------------------------------------------------------------------------

  /** A call as it stands in the tree, without its events. */
  function Unreported(t: Tree<Node>): Entry<Node> {
    Entry(t.frame.(rec := t.frame.rec.(events := [])), t.height)
  }

  /** Every call of a tree in execution order, nothing skipped: all nodes but the event CPIs. */
  function Made(t: Tree<Node>): seq<Entry<Node>>
    decreases t, 0
  {
    [Unreported(t)] + MadeBelow(t.frame.ix, t.children)
  }

  function MadeBelow(parent: Ix, ts: seq<Tree<Node>>): seq<Entry<Node>>
    decreases ts, 0
  {
    if ts == [] then []
    else
      (if IsEvent(parent, ts[0].frame.ix) then MadeBelow(ts[0].frame.ix, ts[0].children) else Made(ts[0]))
      + MadeBelow(parent, ts[1..])
  }

  /** The number of calls below event CPIs. */
  function LostCalls(t: Tree<Node>): nat
    decreases t, 0
  {
    LostCallsBelow(t.frame.ix, t.children)
  }

  function LostCallsBelow(parent: Ix, ts: seq<Tree<Node>>): nat
    decreases ts, 0
  {
    if ts == [] then 0
    else
      (if IsEvent(parent, ts[0].frame.ix) then |MadeBelow(ts[0].frame.ix, ts[0].children)| else LostCalls(ts[0]))
      + LostCallsBelow(parent, ts[1..])
  }

  /** Nothing but event CPIs below this node. */
  predicate NoCalls(parent: Ix, ts: seq<Tree<Node>>)
    decreases ts, 0
  {
    ts == [] || (IsEvent(parent, ts[0].frame.ix) && NoCalls(ts[0].frame.ix, ts[0].children) && NoCalls(parent, ts[1..]))
  }

  /** No event CPI makes a call. */
  predicate Callless(t: Tree<Node>)
    decreases t, 0
  {
    CalllessBelow(t.frame.ix, t.children)
  }

  predicate CalllessBelow(parent: Ix, ts: seq<Tree<Node>>)
    decreases ts, 0
  {
    ts == [] ||
    ((if IsEvent(parent, ts[0].frame.ix) then NoCalls(ts[0].frame.ix, ts[0].children) else Callless(ts[0]))
     && CalllessBelow(parent, ts[1..]))
  }

  lemma {:induction false} NoCallsIff(parent: Ix, ts: seq<Tree<Node>>)
    ensures MadeBelow(parent, ts) == [] <==> NoCalls(parent, ts)
    decreases ts, 0
  {
    hide IsEvent;
    if ts != [] {
      NoCallsIff(ts[0].frame.ix, ts[0].children);
      NoCallsIff(parent, ts[1..]);
    }
  }

  lemma {:induction false} CalllessIff(t: Tree<Node>)
    ensures LostCalls(t) == 0 <==> Callless(t)
    decreases t, 0
  {
    hide IsEvent;
    CalllessBelowIff(t.frame.ix, t.children);
  }

  lemma {:induction false} CalllessBelowIff(parent: Ix, ts: seq<Tree<Node>>)
    ensures LostCallsBelow(parent, ts) == 0 <==> CalllessBelow(parent, ts)
    decreases ts, 0
  {
    hide IsEvent, MadeBelow, NoCalls;
    if ts != [] {
      NoCallsIff(ts[0].frame.ix, ts[0].children);
      CalllessIff(ts[0]);
      CalllessBelowIff(parent, ts[1..]);
    }
  }

  /** Hoisting takes away exactly the calls below event CPIs: it keeps every call, in order, if and only
      if event CPIs make none. */
  lemma {:induction false} HoistCallsIff(t: Tree<Node>)
    ensures |Made(Hoist(t))| + LostCalls(t) == |Made(t)|
    ensures Made(Hoist(t)) == Made(t) <==> Callless(t)
    decreases t, 0
  {
    hide IsEvent;
    HoistKeptMade(t.frame.ix, t.children);
    CalllessIff(t);
    assert Unreported(Hoist(t)) == Unreported(t);
    if Made(Hoist(t)) == Made(t) { assert LostCalls(t) == 0; }
  }

  lemma {:induction false} HoistKeptMade(parent: Ix, ts: seq<Tree<Node>>)
    ensures |MadeBelow(parent, HoistKept(parent, ts))| + LostCallsBelow(parent, ts) == |MadeBelow(parent, ts)|
    ensures CalllessBelow(parent, ts) ==> MadeBelow(parent, HoistKept(parent, ts)) == MadeBelow(parent, ts)
    decreases ts, 0
  {
    hide IsEvent, Made, Callless, LostCalls, Hoist, NoCalls;
    if ts != [] {
      HoistKeptMade(parent, ts[1..]);
      var rest := HoistKept(parent, ts[1..]);
      if IsEvent(parent, ts[0].frame.ix) {
        NoCallsIff(ts[0].frame.ix, ts[0].children);
        assert [] + rest == rest;
      } else {
        HoistCallsIff(ts[0]);
        assert ([Hoist(ts[0])] + rest)[1..] == rest;
      }
    }
  }

  /** The input that shows it: an event CPI that itself calls another program. */
  lemma CallLost(p: string, q: string, r: Rec)
    ensures var event := Ix(p, EVENT_TAG + seq(8, _ => 0));
            var t := Tree(Node(Ix(p, []), r), 1, [Tree(Node(event, r), 2, [Tree(Node(Ix(q, []), r), 3, [])])]);
            |Made(t)| == 2 && |Made(Hoist(t))| == 1 && Hoist(t).children == []
  {
    var event := Ix(p, EVENT_TAG + seq(8, _ => 0));
    var leaf := Tree(Node(Ix(q, []), r), 3, []);
    var mid := Tree(Node(event, r), 2, [leaf]);
    var t := Tree(Node(Ix(p, []), r), 1, [mid]);
    assert event.data[..8] == EVENT_TAG && IsEvent(Ix(p, []), event) && !IsEvent(event, Ix(q, []));
    assert [mid][1..] == [] && [leaf][1..] == [];
    assert MadeBelow(leaf.frame.ix, []) == [] && Made(leaf) == [Unreported(leaf)];
    assert [leaf][0] == leaf && MadeBelow(event, [leaf][1..]) == [];
    assert MadeBelow(event, [leaf]) == Made(leaf) + [];
    assert [mid][0] == mid && MadeBelow(Ix(p, []), [mid][1..]) == [];
    assert MadeBelow(Ix(p, []), [mid]) == [Unreported(leaf)];
    assert HoistKept(Ix(p, []), [mid]) == [];
  }
}
