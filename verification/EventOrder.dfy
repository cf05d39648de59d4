/** The flat lists read off the finished tree, in order. */
module EventOrder {
  import opened Wrappers
  import opened Bytes
  import opened LogLines
  import opened CallTree
  import opened Attribution
  import opened Emission
  import opened EventHoist
  import opened TraceBuild
  import opened ExecutionEvents

  // ----- positions ----------------------------------------------------------------------------

  /** Events of the nodes before the `n`-th. */
  function Offset(es: seq<Entry<Node>>, n: nat): nat
    requires n <= |es|
  {
    if n == 0 then 0 else Offset(es, n - 1) + |es[n - 1].frame.rec.events|
  }

  function Labelled(pid: string, events: seq<seq<Byte>>): (r: seq<(string, seq<Byte>)>)
    ensures |r| == |events| && forall k :: 0 <= k < |events| ==> r[k] == (pid, events[k])
  {
    seq(|events|, (k: nat) requires k < |events| => (pid, events[k]))
  }

  lemma {:induction false} LabelledIs(pid: string, events: seq<seq<Byte>>)
    ensures WithPid(pid, events) == Labelled(pid, events)
  {
    if events != [] { LabelledIs(pid, events[..|events| - 1]); }
  }

  lemma {:induction false} OffsetPrefix(es: seq<Entry<Node>>, m: nat, n: nat)
    requires n <= m <= |es|
    ensures Offset(es[..m], n) == Offset(es, n)
  {
    if n > 0 { OffsetPrefix(es, m, n - 1); }
  }

  lemma {:induction false} RollupSize(es: seq<Entry<Node>>)
    ensures |Rollup(es)| == Offset(es, |es|)
  {
    if es != [] {
      var m := |es| - 1;
      RollupSize(es[..m]);
      LabelledIs(es[m].frame.ix.pid, es[m].frame.rec.events);
      OffsetPrefix(es, m, m);
    }
  }

  /** The roll-up of nodes in execution order holds the `k`-th event of the `n`-th node, with that
      node's program, behind all events of the nodes before it and `k` of its own; and nothing more. */
  lemma {:induction false} RollupAt(es: seq<Entry<Node>>, n: nat, k: nat)
    requires n < |es| && k < |es[n].frame.rec.events|
    ensures |Rollup(es)| == Offset(es, |es|) && Offset(es, n) + k < |Rollup(es)|
    ensures Rollup(es)[Offset(es, n) + k] == (es[n].frame.ix.pid, es[n].frame.rec.events[k])
    decreases |es|
  {
    var m := |es| - 1;
    RollupSize(es);
    RollupSize(es[..m]);
    OffsetPrefix(es, m, n);
    LabelledIs(es[m].frame.ix.pid, es[m].frame.rec.events);
    hide Offset;
    if n < m { RollupAt(es[..m], n, k); }
  }

  /** `collect_events`: a node's events, then those of its children, node by node. */
  method CollectEvents(nodes: seq<Tree<Node>>, out0: seq<(string, seq<Byte>)>) returns (out: seq<(string, seq<Byte>)>)
    ensures out == out0 + Rollup(PreorderAll(nodes))
    decreases nodes
  {
    hide Rollup;
    out := out0;
    NothingRolled();
    assert out0 + [] == out0;
    for i := 0 to |nodes|
      invariant out == out0 + Rollup(PreorderAll(nodes[..i]))
    {
      var n := nodes[i];
      var rest := AppendEvents(n.frame.ix.pid, n.frame.rec.events, out);
      RolledOne(Entry(n.frame, n.height));
      out := CollectEvents(n.children, rest);
      assert nodes[..i + 1] == nodes[..i] + [n];
      PreorderAllSnoc(nodes[..i], n);
      RollupConcat([Entry(n.frame, n.height)], PreorderAll(n.children));
      RollupConcat(PreorderAll(nodes[..i]), Preorder(n));
      Regrouped(out0, Rollup(PreorderAll(nodes[..i])), Labelled(n.frame.ix.pid, n.frame.rec.events), Rollup(PreorderAll(n.children)));
    }
    assert nodes[..|nodes|] == nodes;
  }

  method AppendEvents(pid: string, events: seq<seq<Byte>>, out0: seq<(string, seq<Byte>)>) returns (out: seq<(string, seq<Byte>)>)
    ensures out == out0 + Labelled(pid, events)
  {
    out := out0;
    for k := 0 to |events|
      invariant out == out0 + Labelled(pid, events)[..k]
    {
      out := out + [(pid, events[k])];
    }
  }

  lemma NothingRolled()
    ensures Rollup([]) == [] && PreorderAll<Node>([]) == []
  {
  }

  lemma RolledOne(e: Entry<Node>)
    ensures Rollup([e]) == Labelled(e.frame.ix.pid, e.frame.rec.events)
  {
    LabelledIs(e.frame.ix.pid, e.frame.rec.events);
    assert [e][..0] == [] && [] + WithPid(e.frame.ix.pid, e.frame.rec.events) == WithPid(e.frame.ix.pid, e.frame.rec.events);
  }

  lemma Regrouped<T>(a: seq<T>, b: seq<T>, c: seq<T>, d: seq<T>)
    ensures a + b + c + d == a + (b + (c + d))
  {
  }

  // ----- the events of an execution, in order -------------------------------------------------

  /** What the items of a call log with `emit!`, in order. */
  function DataLogged(items: seq<Item>): seq<seq<Byte>> {
    if items == [] then []
    else (if items[0].Own? && items[0].event.Data? && FirstChunk(items[0].event.chunks).Some?
          then [FirstChunk(items[0].event.chunks).value] else []) + DataLogged(items[1..])
  }

  /** The payloads of its event CPIs, in order. */
  function CpiEmitted(caller: Ix, items: seq<Item>): seq<seq<Byte>> {
    if items == [] then []
    else (if items[0].Sub? && IsEvent(caller, Ix(items[0].call.pid, items[0].call.data))
          then [items[0].call.data[8..]] else []) + CpiEmitted(caller, items[1..])
  }

  /** Call by call: what it logged, then its payloads, then its calls. */
  function Listed(c: Call): seq<(string, seq<Byte>)>
    decreases c, 0
  {
    Labelled(c.pid, DataLogged(c.items) + CpiEmitted(Ix(c.pid, c.data), c.items)) + ListedBelow(Ix(c.pid, c.data), c.items)
  }

  function ListedBelow(caller: Ix, items: seq<Item>): seq<(string, seq<Byte>)>
    decreases items, 0
  {
    if items == [] then []
    else
      assert items[0].Sub? ==> items[0].call < items[0];
      (if items[0].Sub? && !IsEvent(caller, Ix(items[0].call.pid, items[0].call.data)) then Listed(items[0].call) else [])
      + ListedBelow(caller, items[1..])
  }

  lemma {:induction false} DataLoggedIs(items: seq<Item>, pid: string)
    ensures DataIn(Owns(items, 0, pid)) == DataLogged(items)
  {
    if items == [] {
      NoData();
    } else {
      DataLoggedIs(items[1..], pid);
      if items[0].Own? {
        var t := Tagged(0, pid, items[0].event);
        DataConcat([t], Owns(items[1..], 0, pid));
        DataOne(t);
      } else {
        assert [] + Owns(items[1..], 0, pid) == Owns(items[1..], 0, pid);
      }
    }
  }

  /** The children of a traced call, one item at a time. */
  lemma ItemTraced(caller: Ix, items: seq<Item>, height: nat)
    requires items != []
    ensures var rest := TracedAll(items[1..], height);
            if items[0].Own? then TracedAll(items, height) == rest
            else
              var t := Traced(items[0].call, height);
              && TracedAll(items, height) == [t] + rest && t.frame.ix == Ix(items[0].call.pid, items[0].call.data)
              && Payloads(caller, [t] + rest) == (if IsEvent(caller, t.frame.ix) then [t.frame.ix.data[8..]] else []) + Payloads(caller, rest)
              && HoistKept(caller, [t] + rest) == (if IsEvent(caller, t.frame.ix) then [] else [Hoist(t)]) + HoistKept(caller, rest)
  {
    hide IsEvent, OwnRecord, Hoist;
    var rest := TracedAll(items[1..], height);
    if items[0].Sub? {
      var t := Traced(items[0].call, height);
      assert ([t] + rest)[0] == t && ([t] + rest)[1..] == rest;
    } else {
      assert [] + rest == rest;
    }
  }

  lemma {:induction false} PayloadsAre(caller: Ix, items: seq<Item>, height: nat)
    ensures Payloads(caller, TracedAll(items, height)) == CpiEmitted(caller, items)
  {
    if items != [] {
      hide IsEvent, TracedAll, Payloads, HoistKept, Hoist;
      PayloadsAre(caller, items[1..], height);
      ItemTraced(caller, items, height);
      assert [] + CpiEmitted(caller, items[1..]) == CpiEmitted(caller, items[1..]);
    } else {
      assert TracedAll([], height) == [];
    }
  }

  /** The roll-up of an execution's finished trace: call by call in execution order, what it logged in
      order and then its event CPIs' payloads in order, without what is in or below event CPIs. */
  lemma {:induction false} EventsInOrder(c: Call, height: nat)
    requires Executable(c)
    ensures Rollup(Preorder(Hoist(Traced(c, height)))) == Listed(c)
    decreases c, 0
  {
    hide IsEvent, Rollup, IsPrecompile, DataIn, OwnRecord;
    var t := Traced(c, height);
    OwnEvents(c, height);
    DataLoggedIs(c.items, c.pid);
    PayloadsAre(t.frame.ix, c.items, height + 1);
    OrderBelow(t.frame.ix, c.items, height + 1);
    var h := Hoist(t);
    RollupConcat([Entry(h.frame, h.height)], PreorderAll(h.children));
    RolledOne(Entry(h.frame, h.height));
  }

  lemma {:induction false} OrderBelow(caller: Ix, items: seq<Item>, height: nat)
    requires AllExecutable(items)
    ensures Rollup(PreorderAll(HoistKept(caller, TracedAll(items, height)))) == ListedBelow(caller, items)
    decreases items, 0
  {
    hide IsEvent, Rollup, TracedAll, Payloads, HoistKept, Hoist, Listed, Executable, PreorderAll, Preorder;
    if items == [] {
      NoneBelow(caller, height);
      NothingRolled();
    } else {
      assert items[0].Sub? ==> items[0].call < items[0];
      OrderBelow(caller, items[1..], height);
      ItemTraced(caller, items, height);
      var rest := HoistKept(caller, TracedAll(items[1..], height));
      if items[0].Sub? {
        var c := items[0].call;
        if IsEvent(caller, Ix(c.pid, c.data)) {
          assert [] + rest == rest;
        } else {
          EventsInOrder(c, height);
          FirstTree(Hoist(Traced(c, height)), rest);
          RollupConcat(Preorder(Hoist(Traced(c, height))), PreorderAll(rest));
        }
      }
      assert [] + ListedBelow(caller, items[1..]) == ListedBelow(caller, items[1..]);
    }
  }

  lemma NoneBelow(caller: Ix, height: nat)
    ensures TracedAll([], height) == [] && HoistKept(caller, []) == []
  {
  }

  lemma FirstTree(t: Tree<Node>, rest: seq<Tree<Node>>)
    ensures PreorderAll([t] + rest) == Preorder(t) + PreorderAll(rest)
  {
    hide Preorder;
    assert ([t] + rest)[0] == t && ([t] + rest)[1..] == rest;
  }

  /** For a whole transaction, instructions that never ran included. */
  function ListedAll(calls: seq<Call>): seq<(string, seq<Byte>)> {
    if calls == [] then [] else Listed(calls[0]) + ListedAll(calls[1..])
  }

  lemma {:induction false} TransactionEvents(calls: seq<Call>, rest: seq<Ix>)
    requires forall i :: 0 <= i < |calls| ==> Executable(calls[i])
    ensures Rollup(PreorderAll(HoistAll(TopTraced(calls) + Unrun(rest)))) == ListedAll(calls)
    decreases |calls|
  {
    hide Rollup, Hoist, Listed, Executable, Traced, Preorder, TopTraced, Unrun, PreorderAll;
    if calls == [] {
      assert TopTraced(calls) + Unrun(rest) == Unrun(rest);
      UnrunEvents(rest);
    } else {
      var t, more := Traced(calls[0], 1), HoistAll(TopTraced(calls[1..]) + Unrun(rest));
      assert HoistAll(TopTraced(calls) + Unrun(rest)) == [Hoist(t)] + more;
      FirstTree(Hoist(t), more);
      RollupConcat(Preorder(Hoist(t)), PreorderAll(more));
      EventsInOrder(calls[0], 1);
      TransactionEvents(calls[1..], rest);
    }
  }

  lemma {:induction false} UnrunEvents(rest: seq<Ix>)
    ensures Rollup(PreorderAll(HoistAll(Unrun(rest)))) == []
  {
    hide Rollup, Unrun;
    if rest == [] {
      NothingRolled();
      assert HoistAll(Unrun(rest)) == [];
    } else {
      var leaf := Tree(Node(rest[0], FRESH), 1, []);
      assert HoistAll(Unrun(rest)) == [Hoist(leaf)] + HoistAll(Unrun(rest[1..]));
      UnrunEvents(rest[1..]);
      LeafEvents(rest[0]);
      FirstTree(Hoist(leaf), HoistAll(Unrun(rest[1..])));
      RollupConcat(Preorder(Hoist(leaf)), PreorderAll(HoistAll(Unrun(rest[1..]))));
    }
  }

  lemma LeafEvents(ix: Ix)
    ensures Rollup(Preorder(Hoist(Tree(Node(ix, FRESH), 1, [])))) == []
  {
    var leaf := Tree(Node(ix, FRESH), 1, []);
    var h := Hoist(leaf);
    assert HoistKept(ix, leaf.children) == [] && Payloads(ix, leaf.children) == [];
    assert Preorder(h) == [Entry(h.frame, h.height)];
    RolledOne(Entry(h.frame, h.height));
  }

  // ----- the return candidate -----------------------------------------------------------------

  /** The candidate is the data of the last node of the program. */
  lemma {:induction false} LastOfIs(es: seq<Entry<Node>>, pid: string, otherwise: Option<seq<Byte>>, k: nat)
    requires k < |es| && es[k].frame.ix.pid == pid && forall m :: k < m < |es| ==> es[m].frame.ix.pid != pid
    ensures LastOf(es, pid, otherwise) == Some(es[k].frame.ix.data)
    decreases |es|
  {
    if k < |es| - 1 { LastOfIs(es[..|es| - 1], pid, otherwise, k); }
  }

  /** Without any there is no candidate. */
  lemma {:induction false} LastOfNone(es: seq<Entry<Node>>, pid: string, otherwise: Option<seq<Byte>>)
    requires forall m :: 0 <= m < |es| ==> es[m].frame.ix.pid != pid
    ensures LastOf(es, pid, otherwise) == otherwise
    decreases |es|
  {
    if es != [] { LastOfNone(es[..|es| - 1], pid, otherwise); }
  }
}
