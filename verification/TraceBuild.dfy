/** `build_call_tree`: nest every instruction's CPIs, attribute the logs in pre-order, hand each
    node its record, and turn event CPIs into events. */
module TraceBuild {
  import opened Wrappers
  import opened Bytes
  import opened LogLines
  import opened CallTree
  import opened Attribution
  import opened Emission
  import opened EventHoist

  /** Program ids in pre-order (`collect`). */
  function PidsOf(es: seq<Entry<Ix>>): (r: seq<string>)
    ensures |r| == |es| && forall i :: 0 <= i < |es| ==> r[i] == es[i].frame.pid
  {
    seq(|es|, (i: nat) requires i < |es| => es[i].frame.pid)
  }

  /** `distribute`: the record at the running index goes to the node, then on to its children. */
  function Distribute(t: Tree<Ix>, recs: seq<Rec>, i: nat): Tree<Node>
    requires i + |Preorder(t)| <= |recs|
    decreases t, 0
  {
    Tree(Node(t.frame, recs[i]), t.height, DistributeAll(t.children, recs, i + 1))
  }

  function DistributeAll(ts: seq<Tree<Ix>>, recs: seq<Rec>, i: nat): seq<Tree<Node>>
    requires i + |PreorderAll(ts)| <= |recs|
    decreases ts, 0
  {
    if ts == [] then []
    else [Distribute(ts[0], recs, i)] + DistributeAll(ts[1..], recs, i + |Preorder(ts[0])|)
  }

  /** Entries paired with the records from `i` on. */
  function Zip(es: seq<Entry<Ix>>, recs: seq<Rec>, i: nat): (r: seq<Entry<Node>>)
    requires i + |es| <= |recs|
    ensures |r| == |es| && forall k :: 0 <= k < |es| ==> r[k] == Entry(Node(es[k].frame, recs[i + k]), es[k].height)
  {
    seq(|es|, (k: nat) requires k < |es| => Entry(Node(es[k].frame, recs[i + k]), es[k].height))
  }

  /** A tree without its records. */
  function Bare(t: Tree<Node>): Tree<Ix>
    decreases t, 0
  {
    Tree(t.frame.ix, t.height, BareAll(t.children))
  }

  function BareAll(ts: seq<Tree<Node>>): seq<Tree<Ix>>
    decreases ts, 0
  {
    if ts == [] then [] else [Bare(ts[0])] + BareAll(ts[1..])
  }

  /** The tree is the same, and its k-th node in pre-order holds the k-th record. */
  lemma {:induction false} DistributeIs(t: Tree<Ix>, recs: seq<Rec>, i: nat)
    requires i + |Preorder(t)| <= |recs|
    ensures Bare(Distribute(t, recs, i)) == t
    ensures Preorder(Distribute(t, recs, i)) == Zip(Preorder(t), recs, i)
    decreases t, 0
  {
    DistributeAllIs(t.children, recs, i + 1);
  }

  lemma {:induction false} DistributeAllIs(ts: seq<Tree<Ix>>, recs: seq<Rec>, i: nat)
    requires i + |PreorderAll(ts)| <= |recs|
    ensures BareAll(DistributeAll(ts, recs, i)) == ts
    ensures PreorderAll(DistributeAll(ts, recs, i)) == Zip(PreorderAll(ts), recs, i)
    decreases ts, 0
  {
    if ts != [] {
      hide Preorder, Distribute, Bare;
      DistributeIs(ts[0], recs, i);
      DistributeAllIs(ts[1..], recs, i + |Preorder(ts[0])|);
      var rest := DistributeAll(ts[1..], recs, i + |Preorder(ts[0])|);
      assert ([Distribute(ts[0], recs, i)] + rest)[1..] == rest;
      assert [ts[0]] + ts[1..] == ts;
    }
  }

  // ----- executions as trees ------------------------------------------------------------------

  function Shape(c: Call, height: nat): Tree<Ix>
    decreases c, 0
  {
    Tree(Ix(c.pid, c.data), height, Shapes(c.items, height + 1))
  }

  function Shapes(items: seq<Item>, height: nat): seq<Tree<Ix>>
    decreases items, 0
  {
    if items == [] then []
    else
      assert items[0].Sub? ==> items[0].call < items[0];
      (if items[0].Sub? then [Shape(items[0].call, height)] else []) + Shapes(items[1..], height)
  }

  lemma {:induction false} ShapeIs(c: Call, height: nat)
    ensures Nested(Shape(c, height), height) && PidsOf(Preorder(Shape(c, height))) == Pids(c)
    decreases c, 0
  {
    ShapesAre(c.items, height + 1);
  }

  lemma {:induction false} ShapesAre(items: seq<Item>, height: nat)
    ensures AllNested(Shapes(items, height), height) && PidsOf(PreorderAll(Shapes(items, height))) == PidsAll(items)
    decreases items, 0
  {
    hide Preorder, PreorderAll, Nested, AllNested, PidsOf, Pids, PidsAll, Shape, Shapes;
    if items == [] {
      NoShapes(height);
    } else {
      assert items[0].Sub? ==> items[0].call < items[0];
      ShapesAre(items[1..], height);
      ShapesFirst(items, height);
      if items[0].Sub? {
        ShapeIs(items[0].call, height);
        TreesFirst(Shape(items[0].call, height), Shapes(items[1..], height), height);
      }
    }
  }

  lemma NoShapes(height: nat)
    ensures Shapes([], height) == [] && AllNested<Ix>([], height) && PidsOf(PreorderAll([])) == PidsAll([])
  {
  }

  lemma ShapesFirst(items: seq<Item>, height: nat)
    requires items != []
    ensures Shapes(items, height)
            == if items[0].Sub? then [Shape(items[0].call, height)] + Shapes(items[1..], height) else Shapes(items[1..], height)
    ensures PidsAll(items) == if items[0].Sub? then Pids(items[0].call) + PidsAll(items[1..]) else PidsAll(items[1..])
  {
    hide Shape, Pids;
    assert [] + Shapes(items[1..], height) == Shapes(items[1..], height);
    assert [] + PidsAll(items[1..]) == PidsAll(items[1..]);
  }

  lemma TreesFirst(t: Tree<Ix>, rest: seq<Tree<Ix>>, height: nat)
    ensures PidsOf(PreorderAll([t] + rest)) == PidsOf(Preorder(t)) + PidsOf(PreorderAll(rest))
    ensures AllNested([t] + rest, height) <==> Nested(t, height) && AllNested(rest, height)
  {
    hide Preorder, Nested;
    assert ([t] + rest)[0] == t && ([t] + rest)[1..] == rest;
  }

  function TopShapes(calls: seq<Call>): (r: seq<Tree<Ix>>)
    ensures |r| == |calls| && forall i :: 0 <= i < |calls| ==> r[i] == Shape(calls[i], 1)
  {
    seq(|calls|, (i: nat) requires i < |calls| => Shape(calls[i], 1))
  }

  lemma {:induction false} TopPids(calls: seq<Call>)
    ensures PidsOf(PreorderAll(TopShapes(calls))) == TreePids(calls)
  {
    if calls != [] {
      assert TopShapes(calls)[1..] == TopShapes(calls[1..]);
      TopPids(calls[1..]);
      ShapeIs(calls[0], 1);
    }
  }

  // ----- the trace of an execution ------------------------------------------------------------

  /** What a call's own log lines say about it. */
  function OwnRecord(c: Call, height: nat): Rec {
    if IsPrecompile(c.pid) then FRESH
    else Report([Tagged(0, c.pid, Invoke(height))] + Owns(c.items, 0, c.pid) + [Tagged(0, c.pid, c.end)])
  }

  /** The execution itself as a tree: every call under its caller with its own record. */
  function Traced(c: Call, height: nat): Tree<Node>
    decreases c, 0
  {
    Tree(Node(Ix(c.pid, c.data), OwnRecord(c, height)), height, TracedAll(c.items, height + 1))
  }

  function TracedAll(items: seq<Item>, height: nat): seq<Tree<Node>>
    decreases items, 0
  {
    if items == [] then []
    else
      assert items[0].Sub? ==> items[0].call < items[0];
      (if items[0].Sub? then [Traced(items[0].call, height)] else []) + TracedAll(items[1..], height)
  }

  function TopTraced(calls: seq<Call>): (r: seq<Tree<Node>>)
    ensures |r| == |calls| && forall i :: 0 <= i < |calls| ==> r[i] == Traced(calls[i], 1)
  {
    seq(|calls|, (i: nat) requires i < |calls| => Traced(calls[i], 1))
  }

  /** The records from `i` on are what these events report. */
  ghost predicate Holds(recs: seq<Rec>, i: nat, expected: seq<seq<Tagged>>) {
    i + |expected| <= |recs| && forall j :: 0 <= j < |expected| ==> recs[i + j] == Report(expected[j])
  }

  lemma HoldsSplit(recs: seq<Rec>, i: nat, a: seq<seq<Tagged>>, b: seq<seq<Tagged>>)
    requires Holds(recs, i, a + b)
    ensures Holds(recs, i, a) && Holds(recs, i + |a|, b)
  {
    hide Report;
    var w := a + b;
    forall j | 0 <= j < |a| ensures recs[i + j] == Report(a[j]) { assert w[j] == a[j]; }
    forall j | 0 <= j < |b| ensures recs[i + |a| + j] == Report(b[j]) {
      assert w[|a| + j] == b[j] && recs[i + (|a| + j)] == Report(w[|a| + j]);
    }
  }

  /** Which node an event belongs to makes no difference to what it says. */
  lemma {:induction false} ReportElsewhere(ts: seq<Tagged>, us: seq<Tagged>)
    requires |ts| == |us| && forall k :: 0 <= k < |ts| ==> ts[k].pid == us[k].pid && ts[k].event == us[k].event
    ensures Report(ts) == Report(us)
  {
    if ts != [] {
      hide Absorb, Meaning;
      ReportElsewhere(ts[..|ts| - 1], us[..|us| - 1]);
    }
  }

  lemma {:induction false} OwnsElsewhere(items: seq<Item>, i: nat, j: nat, pid: string)
    ensures var a, b := Owns(items, i, pid), Owns(items, j, pid);
            |a| == |b| && forall k :: 0 <= k < |a| ==> a[k].pid == b[k].pid && a[k].event == b[k].event
  {
    if items != [] { OwnsElsewhere(items[1..], i, j, pid); }
  }

  lemma OwnRecordIs(c: Call, i: nat, height: nat)
    ensures Report(Expect(c, i, height)[0]) == OwnRecord(c, height)
  {
    hide IsPrecompile, Report;
    if IsPrecompile(c.pid) {
      assert Report([]) == FRESH by { NothingReported(); }
    } else {
      OwnsElsewhere(c.items, i, 0, c.pid);
      ReportElsewhere([Tagged(i, c.pid, Invoke(height))] + Owns(c.items, i, c.pid) + [Tagged(i, c.pid, c.end)],
                      [Tagged(0, c.pid, Invoke(height))] + Owns(c.items, 0, c.pid) + [Tagged(0, c.pid, c.end)]);
    }
  }

  lemma {:induction false} DistributeTraced(c: Call, height: nat, recs: seq<Rec>, i: nat)
    requires Holds(recs, i, Expect(c, i, height))
    ensures |Preorder(Shape(c, height))| == Size(c) && Distribute(Shape(c, height), recs, i) == Traced(c, height)
    decreases c, 0
  {
    hide Holds, IsPrecompile, OwnRecord, Report;
    ShapeIs(c, height);
    var e := Expect(c, i, height);
    OwnRecordIs(c, i, height);
    assert e == [e[0]] + ExpectAll(c.items, i + 1, height);
    HoldsSplit(recs, i, [e[0]], ExpectAll(c.items, i + 1, height));
    FirstHolds(recs, i, e);
    DistributeAllTraced(c.items, height, recs, i + 1);
  }

  lemma FirstHolds(recs: seq<Rec>, i: nat, expected: seq<seq<Tagged>>)
    requires expected != [] && Holds(recs, i, expected)
    ensures i + |expected| <= |recs| && recs[i] == Report(expected[0])
  {
    assert recs[i + 0] == Report(expected[0]);
  }

  lemma ShapesCounted(items: seq<Item>, height: nat)
    ensures |PreorderAll(Shapes(items, height))| == SizeAll(items)
  {
    ShapesAre(items, height);
  }

  lemma {:induction false} DistributeAllTraced(items: seq<Item>, height: nat, recs: seq<Rec>, next: nat)
    requires next <= |recs| && Holds(recs, next, ExpectAll(items, next, height))
    ensures |PreorderAll(Shapes(items, height + 1))| == SizeAll(items)
    ensures next + SizeAll(items) <= |recs|
    ensures DistributeAll(Shapes(items, height + 1), recs, next) == TracedAll(items, height + 1)
    decreases items, 0
  {
    ShapesCounted(items, height + 1);
    HoldsBound(recs, next, ExpectAll(items, next, height));
    if items != [] {
      hide Holds, Expect, Shape, Traced, Distribute, Preorder;
      assert items[0].Sub? ==> items[0].call < items[0];
      match items[0]
      case Own(_) =>
        DistributeAllTraced(items[1..], height, recs, next);
        assert [] + Shapes(items[1..], height + 1) == Shapes(items[1..], height + 1);
      case Sub(c) =>
        HoldsSplit(recs, next, Expect(c, next, height + 1), ExpectAll(items[1..], next + Size(c), height));
        DistributeTraced(c, height + 1, recs, next);
        DistributeAllTraced(items[1..], height, recs, next + Size(c));
        DistributeFirst(Shape(c, height + 1), Shapes(items[1..], height + 1), recs, next);
    }
  }

  lemma DistributeFirst(t: Tree<Ix>, rest: seq<Tree<Ix>>, recs: seq<Rec>, i: nat)
    requires i + |Preorder(t)| + |PreorderAll(rest)| <= |recs|
    ensures |PreorderAll([t] + rest)| == |Preorder(t)| + |PreorderAll(rest)|
    ensures DistributeAll([t] + rest, recs, i) == [Distribute(t, recs, i)] + DistributeAll(rest, recs, i + |Preorder(t)|)
  {
    hide Distribute, Preorder;
    assert ([t] + rest)[0] == t && ([t] + rest)[1..] == rest;
  }

  lemma {:induction false} TopDistributed(calls: seq<Call>, recs: seq<Rec>, i: nat)
    requires i <= |recs| && Holds(recs, i, ExpectStream(calls, i))
    ensures i + |PreorderAll(TopShapes(calls))| <= |recs| && DistributeAll(TopShapes(calls), recs, i) == TopTraced(calls)
    decreases |calls|
  {
    hide Holds, ExpectStream, Expect, Shape, Traced, TopShapes, TopTraced, Distribute, Preorder, DistributeAll, PreorderAll;
    if calls == [] {
      DistributeNone(recs, i);
      assert TopShapes(calls) == [] && TopTraced(calls) == [];
    } else {
      TopFirst(calls, i);
      HoldsSplit(recs, i, Expect(calls[0], i, 1), ExpectStream(calls[1..], i + Size(calls[0])));
      DistributeTraced(calls[0], 1, recs, i);
      HoldsBound(recs, i, Expect(calls[0], i, 1));
      TopDistributed(calls[1..], recs, i + Size(calls[0]));
      DistributeFirst(Shape(calls[0], 1), TopShapes(calls[1..]), recs, i);
    }
  }

  lemma TopFirst(calls: seq<Call>, i: nat)
    requires calls != []
    ensures ExpectStream(calls, i) == Expect(calls[0], i, 1) + ExpectStream(calls[1..], i + Size(calls[0]))
    ensures TopShapes(calls) == [Shape(calls[0], 1)] + TopShapes(calls[1..])
    ensures TopTraced(calls) == [Traced(calls[0], 1)] + TopTraced(calls[1..])
  {
    hide Expect, Shape, Traced, TopShapes, TopTraced, Size;
    assert TopShapes(calls) == [Shape(calls[0], 1)] + TopShapes(calls[1..]);
    assert TopTraced(calls) == [Traced(calls[0], 1)] + TopTraced(calls[1..]);
  }

  lemma DistributeNone(recs: seq<Rec>, i: nat)
    requires i <= |recs|
    ensures PreorderAll<Ix>([]) == [] && DistributeAll([], recs, i) == []
  {
  }

  lemma HoldsBound(recs: seq<Rec>, i: nat, expected: seq<seq<Tagged>>)
    requires Holds(recs, i, expected)
    ensures i + |expected| <= |recs|
  {
  }

  /** `logs` is the whole log stream of this execution. */
  ghost predicate Logged(calls: seq<Call>, logs: seq<string>, decode: string -> Option<seq<Byte>>) {
    && (forall j :: 0 <= j < |calls| ==> Executable(calls[j]))
    && exists encode: seq<Byte> -> string :: Base64(encode, decode) && logs == Printed(Stream(calls, 0), encode)
  }

  /** From the shape and the logs of an execution the execution itself is rebuilt, with an empty
      record for every instruction that never ran. */
  lemma TraceIsExecution(calls: seq<Call>, rest: seq<Ix>, logs: seq<string>, decode: string -> Option<seq<Byte>>)
    requires Logged(calls, logs, decode)
    ensures var forest := TopShapes(calls) + Leaves(rest);
            DistributeAll(forest, Run(PidsOf(PreorderAll(forest)), Lines(logs, decode)).recs, 0) == TopTraced(calls) + Unrun(rest)
  {
    hide Run, Executable, Base64, DistributeAll, Report, PreorderAll;
    var encode: seq<Byte> -> string :| Base64(encode, decode) && logs == Printed(Stream(calls, 0), encode);
    var a, b := TopShapes(calls), Leaves(rest);
    TopPids(calls);
    LeafPids(rest);
    PreorderConcat(a, b);
    var more := PidsOf(PreorderAll(b));
    assert PidsOf(PreorderAll(a + b)) == TreePids(calls) + more;
    CompleteAttribution(calls, more, decode, encode);
    var recs := Run(TreePids(calls) + more, Lines(logs, decode)).recs;
    TopDistributed(calls, recs, 0);
    LeavesDistributed(rest, recs, |PreorderAll(a)|);
    DistributeConcat(a, b, recs, 0);
  }

  // ----- instructions that never ran ----------------------------------------------------------

  function Leaves(ixs: seq<Ix>): (r: seq<Tree<Ix>>)
    ensures |r| == |ixs| && forall i :: 0 <= i < |ixs| ==> r[i] == Tree(ixs[i], 1, [])
  {
    seq(|ixs|, (i: nat) requires i < |ixs| => Tree(ixs[i], 1, []))
  }

  function Unrun(ixs: seq<Ix>): (r: seq<Tree<Node>>)
    ensures |r| == |ixs| && forall i :: 0 <= i < |ixs| ==> r[i] == Tree(Node(ixs[i], FRESH), 1, [])
  {
    seq(|ixs|, (i: nat) requires i < |ixs| => Tree(Node(ixs[i], FRESH), 1, []))
  }

  lemma {:induction false} LeafPids(ixs: seq<Ix>)
    ensures |PreorderAll(Leaves(ixs))| == |ixs|
  {
    if ixs != [] {
      assert Leaves(ixs)[1..] == Leaves(ixs[1..]);
      LeafPids(ixs[1..]);
    }
  }

  lemma {:induction false} LeavesDistributed(ixs: seq<Ix>, recs: seq<Rec>, i: nat)
    requires i + |PreorderAll(Leaves(ixs))| <= |recs| && forall j :: i <= j < |recs| ==> recs[j] == FRESH
    ensures DistributeAll(Leaves(ixs), recs, i) == Unrun(ixs)
    decreases |ixs|
  {
    hide Leaves, Unrun, Distribute, Preorder, DistributeAll, PreorderAll;
    if ixs == [] {
      DistributeNone(recs, i);
      assert Leaves(ixs) == [] && Unrun(ixs) == [];
    } else {
      LeafPids(ixs);
      LeafPids(ixs[1..]);
      LeafDistributed(ixs[0], recs, i);
      LeavesDistributed(ixs[1..], recs, i + 1);
      DistributeFirst(Tree(ixs[0], 1, []), Leaves(ixs[1..]), recs, i);
      assert Leaves(ixs) == [Tree(ixs[0], 1, [])] + Leaves(ixs[1..]);
      assert Unrun(ixs) == [Tree(Node(ixs[0], FRESH), 1, [])] + Unrun(ixs[1..]);
    }
  }

  lemma LeafDistributed(ix: Ix, recs: seq<Rec>, i: nat)
    requires i < |recs| && recs[i] == FRESH
    ensures |Preorder(Tree(ix, 1, []))| == 1 && Distribute(Tree(ix, 1, []), recs, i) == Tree(Node(ix, FRESH), 1, [])
  {
    LeafAlone(ix);
  }

  lemma {:induction false} PreorderConcat(a: seq<Tree<Ix>>, b: seq<Tree<Ix>>)
    ensures PreorderAll(a + b) == PreorderAll(a) + PreorderAll(b)
    decreases |a|
  {
    hide Preorder;
    if a == [] {
      assert a + b == b;
    } else {
      assert (a + b)[1..] == a[1..] + b;
      PreorderConcat(a[1..], b);
    }
  }

  lemma {:induction false} DistributeConcat(a: seq<Tree<Ix>>, b: seq<Tree<Ix>>, recs: seq<Rec>, i: nat)
    requires i + |PreorderAll(a)| + |PreorderAll(b)| <= |recs|
    ensures |PreorderAll(a + b)| == |PreorderAll(a)| + |PreorderAll(b)|
    ensures DistributeAll(a + b, recs, i) == DistributeAll(a, recs, i) + DistributeAll(b, recs, i + |PreorderAll(a)|)
    decreases |a|
  {
    hide Distribute, Preorder, DistributeAll, PreorderAll;
    PreorderConcat(a, b);
    if a == [] {
      DistributeNone(recs, i);
      assert a + b == b;
    } else {
      var first, rest := a[0], a[1..];
      assert a == [first] + rest && a + b == [first] + (rest + b);
      PreorderConcat([first], rest);
      PreorderConcat(rest, b);
      PreorderOne(first);
      DistributeFirst(first, rest, recs, i);
      DistributeFirst(first, rest + b, recs, i);
      DistributeConcat(rest, b, recs, i + |Preorder(first)|);
    }
  }

  lemma PreorderOne(t: Tree<Ix>)
    ensures PreorderAll([t]) == Preorder(t)
  {
    hide Preorder;
    assert [t][1..] == [];
  }

  // ----- building -----------------------------------------------------------------------------

  /** `roots` and `inner` are what the runtime records of this execution: the instructions, and
      under each the CPIs in order with their stack heights. Instructions behind a failed one never
      ran and have none. */
  predicate Recorded(calls: seq<Call>, roots: seq<Ix>, inner: seq<seq<Entry<Ix>>>) {
    && |calls| <= |roots| && |inner| <= |roots|
    && (forall i :: 0 <= i < |calls| ==>
          Preorder(Shape(calls[i], 1)) == [Entry(roots[i], 1)] + if i < |inner| then inner[i] else [])
    && (forall i :: |calls| <= i < |inner| ==> inner[i] == [])
  }

  /** No other tree nested by height has this pre-order. */
  ghost predicate Unique(t: Tree<Ix>) {
    forall u :: Nested(u, 1) && Preorder(u) == Preorder(t) ==> u == t
  }

  method NestAll(roots: seq<Ix>, inner: seq<seq<Entry<Ix>>>) returns (forest: seq<Tree<Ix>>)
    ensures |forest| == |roots|
    ensures forall i :: 0 <= i < |roots| ==>
              Preorder(forest[i]) == [Entry(roots[i], 1)] + if i < |inner| then inner[i] else []
    ensures forall i :: 0 <= i < |roots| ==> Unique(forest[i])
  {
    forest := [];
    for i := 0 to |roots|
      invariant |forest| == i
      invariant forall k :: 0 <= k < i ==>
                  Preorder(forest[k]) == [Entry(roots[k], 1)] + if k < |inner| then inner[k] else []
      invariant forall k :: 0 <= k < i ==> Unique(forest[k])
    {
      var t: Tree<Ix>;
      if i < |inner| && inner[i] != [] {
        t := Nest(Tree(roots[i], 1, []), inner[i]);
        assert Unique(t) by {
          forall u | Nested(u, 1) && Preorder(u) == Preorder(t) ensures u == t {
            assert Preorder(u) == [Entry(roots[i], 1)] + inner[i];
          }
        }
      } else {
        t := Tree(roots[i], 1, []);
        assert Unique(t) by {
          forall u | Nested(u, 1) && Preorder(u) == Preorder(t) ensures u == t { PreorderInjective(t, u, 1); }
        }
      }
      forest := forest + [t];
    }
  }

  /** One tree per instruction: its recorded CPIs in order, the k-th record on the k-th node, event
      CPIs hoisted. For the record of an execution it is that execution's tree; and if the log
      stream is whole, the execution itself, each call with its own record and every instruction
      that never ran with an empty one. */
  method BuildCallTree(roots: seq<Ix>, inner: seq<seq<Entry<Ix>>>, logs: seq<string>, decode: string -> Option<seq<Byte>>)
    returns (tree: seq<Tree<Node>>, ghost forest: seq<Tree<Ix>>)
    ensures |tree| == |forest| == |roots|
    ensures forall i :: 0 <= i < |roots| ==>
              Preorder(forest[i]) == [Entry(roots[i], 1)] + if i < |inner| then inner[i] else []
    ensures tree == HoistAll(DistributeAll(forest, Run(PidsOf(PreorderAll(forest)), Lines(logs, decode)).recs, 0))
    ensures forall calls :: Recorded(calls, roots, inner) ==> forest == TopShapes(calls) + Leaves(roots[|calls|..])
    ensures forall calls :: Recorded(calls, roots, inner) && Logged(calls, logs, decode) ==>
              tree == HoistAll(TopTraced(calls) + Unrun(roots[|calls|..]))
  {
    hide Run, Hoist, Logged, Shape, Unique;
    var built := NestAll(roots, inner);
    forest := built;
    var recs := AttachLogs(PidsOf(PreorderAll(built)), logs, decode);
    DistributeAllIs(built, recs, 0);
    DistributeSize(built, recs, 0);
    tree := HoistCpiEvents(DistributeAll(built, recs, 0));
    forall calls | Recorded(calls, roots, inner) ensures forest == TopShapes(calls) + Leaves(roots[|calls|..]) {
      ForestIs(calls, roots, inner, forest);
    }
    forall calls | Recorded(calls, roots, inner) && Logged(calls, logs, decode)
      ensures tree == HoistAll(TopTraced(calls) + Unrun(roots[|calls|..]))
    {
      TraceIsExecution(calls, roots[|calls|..], logs, decode);
    }
  }

  /** The only forest nested by height that has the recorded pre-orders. */
  lemma ForestIs(calls: seq<Call>, roots: seq<Ix>, inner: seq<seq<Entry<Ix>>>, forest: seq<Tree<Ix>>)
    requires Recorded(calls, roots, inner) && |forest| == |roots|
    requires forall i :: 0 <= i < |roots| ==>
               && Unique(forest[i]) && Preorder(forest[i]) == [Entry(roots[i], 1)] + if i < |inner| then inner[i] else []
    ensures |calls| <= |roots| && forest == TopShapes(calls) + Leaves(roots[|calls|..])
  {
    hide Unique, Preorder;
    var want := TopShapes(calls) + Leaves(roots[|calls|..]);
    forall k | 0 <= k < |roots| ensures forest[k] == want[k] {
      if k < |calls| {
        ShapeIs(calls[k], 1);
        OnlyOne(forest[k], Shape(calls[k], 1));
      } else {
        LeafAlone(roots[k]);
        OnlyOne(forest[k], Tree(roots[k], 1, []));
      }
    }
  }

  lemma OnlyOne(t: Tree<Ix>, u: Tree<Ix>)
    requires Unique(t) && Nested(u, 1) && Preorder(u) == Preorder(t)
    ensures t == u
  {
  }

  lemma LeafAlone(ix: Ix)
    ensures Preorder(Tree(ix, 1, [])) == [Entry(ix, 1)] && Nested(Tree(ix, 1, []), 1)
  {
  }

  lemma {:induction false} DistributeSize(ts: seq<Tree<Ix>>, recs: seq<Rec>, i: nat)
    requires i + |PreorderAll(ts)| <= |recs|
    ensures |DistributeAll(ts, recs, i)| == |ts|
    decreases |ts|
  {
    if ts != [] { DistributeSize(ts[1..], recs, i + |Preorder(ts[0])|); }
  }
}
