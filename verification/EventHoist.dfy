/** `hoist_cpi_events` and what reads the finished tree: an `emit_cpi!` self-CPI is not a call but
    an event of the program that made it. */
module EventHoist {
  import opened Wrappers
  import opened Bytes
  import opened CallTree
  import opened Attribution

  datatype Ix = Ix(pid: string, data: seq<Byte>)

  datatype Node = Node(ix: Ix, rec: Rec)

  const EVENT_TAG: seq<Byte> := [0xe4, 0x45, 0xa5, 0x2e, 0x51, 0xcb, 0x9a, 0x1d]

  predicate IsEvent(parent: Ix, child: Ix) {
    child.pid == parent.pid && |child.data| >= 16 && child.data[..8] == EVENT_TAG
  }

  /** An event CPI is a call of the program by itself whose data is the tag that Anchor puts in front,
      eight bytes that say which event, and the event. */
  lemma IsEventIff(parent: Ix, child: Ix)
    ensures IsEvent(parent, child) <==>
            && child.pid == parent.pid
            && exists disc: seq<Byte>, body: seq<Byte> ::
                 |disc| == 8 && child.data == [0xe4, 0x45, 0xa5, 0x2e, 0x51, 0xcb, 0x9a, 0x1d] + disc + body
  {
    if IsEvent(parent, child) {
      var disc, body := child.data[8..16], child.data[16..];
      assert child.data == [0xe4, 0x45, 0xa5, 0x2e, 0x51, 0xcb, 0x9a, 0x1d] + disc + body;
    }
  }

  // ----- hoisting -----------------------------------------------------------------------------

  /** The payloads of the event CPIs among a node's children. */
  function Payloads(parent: Ix, ts: seq<Tree<Node>>): seq<seq<Byte>> {
    if ts == [] then []
    else (if IsEvent(parent, ts[0].frame.ix) then [ts[0].frame.ix.data[8..]] else []) + Payloads(parent, ts[1..])
  }

  function Hoist(t: Tree<Node>): (r: Tree<Node>)
    ensures r.frame.ix == t.frame.ix && r.height == t.height
    decreases t, 0
  {
    var own := t.frame.rec;
    Tree(t.frame.(rec := own.(events := own.events + Payloads(t.frame.ix, t.children))), t.height, HoistKept(t.frame.ix, t.children))
  }

  /** The children that are calls, hoisted in turn. */
  function HoistKept(parent: Ix, ts: seq<Tree<Node>>): seq<Tree<Node>>
    decreases ts, 0
  {
    if ts == [] then []
    else (if IsEvent(parent, ts[0].frame.ix) then [] else [Hoist(ts[0])]) + HoistKept(parent, ts[1..])
  }

  function HoistAll(ts: seq<Tree<Node>>): (r: seq<Tree<Node>>)
    ensures |r| == |ts| && forall i :: 0 <= i < |ts| ==> r[i] == Hoist(ts[i])
  {
    seq(|ts|, (i: nat) requires i < |ts| => Hoist(ts[i]))
  }

  function Kept(parent: Ix, ts: seq<Tree<Node>>): seq<Tree<Node>> {
    if ts == [] then [] else (if IsEvent(parent, ts[0].frame.ix) then [] else [ts[0]]) + Kept(parent, ts[1..])
  }

  lemma {:induction false} HoistKeptIs(parent: Ix, ts: seq<Tree<Node>>)
    ensures HoistAll(Kept(parent, ts)) == HoistKept(parent, ts)
  {
    hide Hoist, IsEvent;
    if ts != [] {
      HoistKeptIs(parent, ts[1..]);
    }
  }

  lemma {:induction false} KeptSmaller(parent: Ix, ts: seq<Tree<Node>>)
    ensures |PreorderAll(Kept(parent, ts))| <= |PreorderAll(ts)|
  {
    hide Preorder, IsEvent;
    if ts != [] {
      KeptSmaller(parent, ts[1..]);
      var rest := Kept(parent, ts[1..]);
      assert ([ts[0]] + rest)[1..] == rest && [] + rest == rest;
    }
  }

  /** `hoist_cpi_events`: the children are sorted into events and calls, then the calls treated in
      the same way. */
  method HoistCpiEvents(nodes: seq<Tree<Node>>) returns (out: seq<Tree<Node>>)
    ensures out == HoistAll(nodes)
    decreases |PreorderAll(nodes)|
  {
    hide IsEvent;
    out := [];
    for i := 0 to |nodes|
      invariant |out| == i && forall k :: 0 <= k < i ==> out[k] == Hoist(nodes[k])
    {
      var node := nodes[i];
      var events, kept := SortChildren(node);
      ChildrenSmaller(nodes, i);
      KeptSmaller(node.frame.ix, node.children);
      var children := HoistCpiEvents(kept);
      HoistKeptIs(node.frame.ix, node.children);
      out := out + [Tree(node.frame.(rec := node.frame.rec.(events := events)), node.height, children)];
    }
  }

  method SortChildren(node: Tree<Node>) returns (events: seq<seq<Byte>>, kept: seq<Tree<Node>>)
    ensures events == node.frame.rec.events + Payloads(node.frame.ix, node.children)
    ensures kept == Kept(node.frame.ix, node.children)
  {
    hide IsEvent;
    var ix, ts := node.frame.ix, node.children;
    events, kept := node.frame.rec.events, [];
    assert ts[0..] == ts && [] + Kept(ix, ts) == Kept(ix, ts);
    for j := 0 to |ts|
      invariant events + Payloads(ix, ts[j..]) == node.frame.rec.events + Payloads(ix, ts)
      invariant kept + Kept(ix, ts[j..]) == Kept(ix, ts)
    {
      assert ts[j..][0] == ts[j] && ts[j..][1..] == ts[j + 1..];
      if IsEvent(ix, ts[j].frame.ix) {
        EventData(ix, ts[j].frame.ix);
        Regroup3(events, [ts[j].frame.ix.data[8..]], Payloads(ix, ts[j + 1..]));
        events := events + [ts[j].frame.ix.data[8..]];
      } else {
        Regroup3(kept, [ts[j]], Kept(ix, ts[j + 1..]));
        kept := kept + [ts[j]];
      }
    }
    assert ts[|ts|..] == [] && kept + [] == kept && events + [] == events;
  }

  lemma EventData(parent: Ix, child: Ix)
    requires IsEvent(parent, child)
    ensures |child.data| >= 8
  {
  }

  lemma Regroup3<T>(a: seq<T>, b: seq<T>, c: seq<T>)
    ensures a + (b + c) == a + b + c
  {
  }

  lemma {:induction false} ChildrenSmaller<L>(nodes: seq<Tree<L>>, i: nat)
    requires i < |nodes|
    ensures |PreorderAll(nodes[i].children)| < |PreorderAll(nodes)|
  {
    if i > 0 { ChildrenSmaller(nodes[1..], i - 1); }
  }

  // ----- what hoisting keeps ------------------------------------------------------------------

  /** An event and the program that emitted it. */
  type Emitted = multiset<(string, seq<Byte>)>

  /** Events of one program. */
  function By(pid: string, events: seq<seq<Byte>>): Emitted {
    if events == [] then multiset{} else By(pid, events[..|events| - 1]) + multiset{(pid, events[|events| - 1])}
  }

  /** The events a tree tells of, logged or sent by self-CPI, without looking into event CPIs. */
  function EventsOf(t: Tree<Node>): Emitted
    decreases t, 0
  {
    By(t.frame.ix.pid, t.frame.rec.events) + EventsBelow(t.frame.ix, t.children)
  }

  function EventsBelow(parent: Ix, ts: seq<Tree<Node>>): Emitted
    decreases ts, 0
  {
    if ts == [] then multiset{}
    else
      (if IsEvent(parent, ts[0].frame.ix) then multiset{(parent.pid, ts[0].frame.ix.data[8..])} else EventsOf(ts[0]))
      + EventsBelow(parent, ts[1..])
  }

  /** No self-CPI event is left among the calls. */
  predicate Settled(t: Tree<Node>)
    decreases t, 0
  {
    SettledBelow(t.frame.ix, t.children)
  }

  predicate SettledBelow(parent: Ix, ts: seq<Tree<Node>>)
    decreases ts, 0
  {
    ts == [] || (!IsEvent(parent, ts[0].frame.ix) && Settled(ts[0]) && SettledBelow(parent, ts[1..]))
  }

  /** The calls alone: event CPIs, with all below them, and event lists left away. */
  function Calls(t: Tree<Node>): Tree<Node>
    decreases t, 0
  {
    Tree(t.frame.(rec := t.frame.rec.(events := [])), t.height, CallsBelow(t.frame.ix, t.children))
  }

  function CallsBelow(parent: Ix, ts: seq<Tree<Node>>): seq<Tree<Node>>
    decreases ts, 0
  {
    if ts == [] then []
    else (if IsEvent(parent, ts[0].frame.ix) then [] else [Calls(ts[0])]) + CallsBelow(parent, ts[1..])
  }

  lemma {:induction false} TaggedConcat(pid: string, a: seq<seq<Byte>>, b: seq<seq<Byte>>)
    ensures By(pid, a + b) == By(pid, a) + By(pid, b)
    decreases |b|
  {
    if b == [] {
      assert a + b == a;
    } else {
      assert (a + b)[..|a + b| - 1] == a + b[..|b| - 1];
      TaggedConcat(pid, a, b[..|b| - 1]);
    }
  }

  lemma TaggedOne(pid: string, e: seq<Byte>)
    ensures By(pid, [e]) == multiset{(pid, e)}
  {
    assert [e][..0] == [];
  }

  /** Apart from what is in and below event CPIs, hoisting keeps every event with the program that
      emitted it, and calls with their order, parents and records; and no event CPI is left. What
      event CPIs take with them is the matter of module `HoistLoss`. */
  lemma HoistKeeps(t: Tree<Node>)
    ensures EventsOf(Hoist(t)) == EventsOf(t)
    ensures Calls(Hoist(t)) == Calls(t)
    ensures Settled(Hoist(t))
  {
    hide EventsOf, Calls, Settled, Hoist;
    HoistEvents(t);
    HoistCalls(t);
  }

  lemma {:induction false} HoistEvents(t: Tree<Node>)
    ensures EventsOf(Hoist(t)) == EventsOf(t)
    decreases t, 0
  {
    hide IsEvent;
    TaggedConcat(t.frame.ix.pid, t.frame.rec.events, Payloads(t.frame.ix, t.children));
    HoistKeptEvents(t.frame.ix, t.children);
  }

  lemma {:induction false} HoistKeptEvents(parent: Ix, ts: seq<Tree<Node>>)
    ensures By(parent.pid, Payloads(parent, ts)) + EventsBelow(parent, HoistKept(parent, ts)) == EventsBelow(parent, ts)
    decreases ts, 0
  {
    if ts != [] {
      hide IsEvent, By, EventsOf, EventsBelow, Payloads, Hoist, HoistKept;
      HoistKeptEvents(parent, ts[1..]);
      if IsEvent(parent, ts[0].frame.ix) {
        EventFirst(parent, ts);
      } else {
        HoistEvents(ts[0]);
        CallFirst(parent, ts);
        BelowCons(parent, Hoist(ts[0]), HoistKept(parent, ts[1..]));
      }
    }
  }

  lemma EventFirst(parent: Ix, ts: seq<Tree<Node>>)
    requires ts != [] && IsEvent(parent, ts[0].frame.ix)
    ensures var e := multiset{(parent.pid, ts[0].frame.ix.data[8..])};
            && By(parent.pid, Payloads(parent, ts)) == e + By(parent.pid, Payloads(parent, ts[1..]))
            && HoistKept(parent, ts) == HoistKept(parent, ts[1..])
            && EventsBelow(parent, ts) == e + EventsBelow(parent, ts[1..])
  {
    hide By, EventsOf, Hoist;
    var p := ts[0].frame.ix.data[8..];
    TaggedConcat(parent.pid, [p], Payloads(parent, ts[1..]));
    TaggedOne(parent.pid, p);
    assert [] + HoistKept(parent, ts[1..]) == HoistKept(parent, ts[1..]);
  }

  lemma CallFirst(parent: Ix, ts: seq<Tree<Node>>)
    requires ts != [] && !IsEvent(parent, ts[0].frame.ix)
    ensures Payloads(parent, ts) == Payloads(parent, ts[1..])
    ensures HoistKept(parent, ts) == [Hoist(ts[0])] + HoistKept(parent, ts[1..])
    ensures EventsBelow(parent, ts) == EventsOf(ts[0]) + EventsBelow(parent, ts[1..])
  {
    hide By, EventsOf, Hoist, IsEvent;
    assert [] + Payloads(parent, ts[1..]) == Payloads(parent, ts[1..]);
  }

  lemma BelowCons(parent: Ix, t: Tree<Node>, rest: seq<Tree<Node>>)
    requires !IsEvent(parent, t.frame.ix)
    ensures EventsBelow(parent, [t] + rest) == EventsOf(t) + EventsBelow(parent, rest)
  {
    hide IsEvent, EventsOf;
    assert ([t] + rest)[1..] == rest;
  }

  lemma {:induction false} HoistCalls(t: Tree<Node>)
    ensures Calls(Hoist(t)) == Calls(t) && Settled(Hoist(t))
    decreases t, 0
  {
    hide IsEvent;
    HoistKeptCalls(t.frame.ix, t.children);
  }

  lemma {:induction false} HoistKeptCalls(parent: Ix, ts: seq<Tree<Node>>)
    ensures CallsBelow(parent, HoistKept(parent, ts)) == CallsBelow(parent, ts)
    ensures SettledBelow(parent, HoistKept(parent, ts))
    decreases ts, 0
  {
    if ts != [] {
      hide IsEvent, Settled, Calls, Hoist;
      HoistKeptCalls(parent, ts[1..]);
      HoistCalls(ts[0]);
      var rest := HoistKept(parent, ts[1..]);
      assert [] + rest == rest && ([Hoist(ts[0])] + rest)[1..] == rest;
    }
  }

  /** A settled tree is left as it is. */
  lemma {:induction false} HoistSettled(t: Tree<Node>)
    requires Settled(t)
    ensures Hoist(t) == t
    decreases t, 0
  {
    hide IsEvent;
    SettledKept(t.frame.ix, t.children);
    assert t.frame.rec.events + [] == t.frame.rec.events;
  }

  lemma {:induction false} SettledKept(parent: Ix, ts: seq<Tree<Node>>)
    requires SettledBelow(parent, ts)
    ensures Payloads(parent, ts) == [] && HoistKept(parent, ts) == ts
    decreases ts, 0
  {
    hide IsEvent, Settled, Hoist;
    if ts != [] {
      HoistSettled(ts[0]);
      SettledKept(parent, ts[1..]);
      assert [ts[0]] + ts[1..] == ts;
    }
  }

  // ----- reading the finished tree ------------------------------------------------------------

  /** `collect_events`: the flat list of a transaction's events. */
  function Rollup(es: seq<Entry<Node>>): seq<(string, seq<Byte>)> {
    if es == [] then [] else Rollup(es[..|es| - 1]) + WithPid(es[|es| - 1].frame.ix.pid, es[|es| - 1].frame.rec.events)
  }

  function WithPid(pid: string, events: seq<seq<Byte>>): seq<(string, seq<Byte>)> {
    if events == [] then [] else WithPid(pid, events[..|events| - 1]) + [(pid, events[|events| - 1])]
  }

  lemma {:induction false} WithPidTagged(pid: string, events: seq<seq<Byte>>)
    ensures multiset(WithPid(pid, events)) == By(pid, events)
  {
    if events != [] { WithPidTagged(pid, events[..|events| - 1]); }
  }

  lemma {:induction false} RollupConcat(a: seq<Entry<Node>>, b: seq<Entry<Node>>)
    ensures Rollup(a + b) == Rollup(a) + Rollup(b)
    decreases |b|
  {
    if b == [] {
      assert a + b == a;
    } else {
      assert (a + b)[..|a + b| - 1] == a + b[..|b| - 1];
      RollupConcat(a, b[..|b| - 1]);
    }
  }

  /** On a settled tree the roll-up holds exactly the events of its nodes. */
  lemma {:induction false} RollupIs(t: Tree<Node>)
    requires Settled(t)
    ensures multiset(Rollup(Preorder(t))) == EventsOf(t)
    decreases t, 0
  {
    hide IsEvent;
    var first := [Entry(t.frame, t.height)];
    RollupConcat(first, PreorderAll(t.children));
    assert first[..0] == [] && [] + WithPid(t.frame.ix.pid, t.frame.rec.events) == WithPid(t.frame.ix.pid, t.frame.rec.events);
    assert Rollup(first) == WithPid(t.frame.ix.pid, t.frame.rec.events);
    WithPidTagged(t.frame.ix.pid, t.frame.rec.events);
    RollupBelow(t.frame.ix, t.children);
  }

  lemma {:induction false} RollupBelow(parent: Ix, ts: seq<Tree<Node>>)
    requires SettledBelow(parent, ts)
    ensures multiset(Rollup(PreorderAll(ts))) == EventsBelow(parent, ts)
    decreases ts, 0
  {
    hide IsEvent, Settled, EventsOf, Preorder;
    if ts != [] {
      RollupIs(ts[0]);
      RollupBelow(parent, ts[1..]);
      RollupConcat(Preorder(ts[0]), PreorderAll(ts[1..]));
    }
  }

  /** The last invocation of a program in execution order. */
  function LastOf(es: seq<Entry<Node>>, pid: string, otherwise: Option<seq<Byte>>): Option<seq<Byte>> {
    if es == [] then otherwise
    else if es[|es| - 1].frame.ix.pid == pid then Some(es[|es| - 1].frame.ix.data)
    else LastOf(es[..|es| - 1], pid, otherwise)
  }

  lemma {:induction false} LastConcat(a: seq<Entry<Node>>, b: seq<Entry<Node>>, pid: string, o: Option<seq<Byte>>)
    ensures LastOf(a + b, pid, o) == LastOf(b, pid, LastOf(a, pid, o))
    decreases |b|
  {
    if b == [] {
      assert a + b == a;
    } else {
      assert (a + b)[..|a + b| - 1] == a + b[..|b| - 1] && (a + b)[|a + b| - 1] == b[|b| - 1];
      LastConcat(a, b[..|b| - 1], pid, o);
    }
  }

  /** `return_candidate`: the walk ends with the data of the last invocation in execution order. */
  method ReturnCandidate(nodes: seq<Tree<Node>>, pid: string, found0: Option<seq<Byte>>) returns (found: Option<seq<Byte>>)
    ensures found == LastOf(PreorderAll(nodes), pid, found0)
    decreases nodes
  {
    found := found0;
    ghost var done: seq<Entry<Node>> := [];
    assert nodes[0..] == nodes && [] + PreorderAll(nodes) == PreorderAll(nodes);
    for i := 0 to |nodes|
      invariant found == LastOf(done, pid, found0)
      invariant PreorderAll(nodes) == done + PreorderAll(nodes[i..])
    {
      var n := nodes[i];
      ghost var first := [Entry(n.frame, n.height)];
      assert nodes[i..][0] == n && nodes[i..][1..] == nodes[i + 1..];
      LastConcat(done, first, pid, found0);
      assert first[..0] == [];
      if n.frame.ix.pid == pid { found := Some(n.frame.ix.data); }
      LastConcat(done + first, PreorderAll(n.children), pid, found0);
      found := ReturnCandidate(n.children, pid, found);
      Regroup3(done, first, PreorderAll(n.children));
      Regroup3(done, Preorder(n), PreorderAll(nodes[i + 1..]));
      done := done + first + PreorderAll(n.children);
    }
    assert nodes[|nodes|..] == [] && done + [] == done;
  }
}
