/** The failures of an execution, and whether the program named for its error is the one that failed. */
module ExecutionFailures {
  import opened Wrappers
  import opened Bytes
  import opened Text
  import opened LogLines
  import opened CallTree
  import opened Attribution
  import opened Emission
  import opened EventHoist
  import opened TraceBuild
  import opened ErrorOrigin
  import opened FailureLoss
  import opened ExecutionOrigin

  // ----- failures of an execution -------------------------------------------------------------

  /** The calls that failed, in execution order, with their trimmed texts. Precompiles log nothing. */
  function FailedCalls(c: Call): seq<Failure>
    decreases c, 0
  {
    OwnEnd(c) + FailedItems(c.items)
  }

  function FailedItems(items: seq<Item>): seq<Failure>
    decreases items, 0
  {
    if items == [] then []
    else
      assert items[0].Sub? ==> items[0].call < items[0];
      (if items[0].Sub? then FailedCalls(items[0].call) else []) + FailedItems(items[1..])
  }

  function OwnEnd(c: Call): seq<Failure> {
    if IsPrecompile(c.pid) || !c.end.Fail? then []
    else [Failure(c.pid, if Blank(c.end.msg, Ws) then None else Some(Trim(c.end.msg, Ws)))]
  }

  function AllFailed(calls: seq<Call>): seq<Failure> {
    if calls == [] then [] else FailedCalls(calls[0]) + AllFailed(calls[1..])
  }

  /** No event CPI of this call failed, nor anything below one. */
  predicate Clear(c: Call)
    decreases c, 0
  {
    ClearItems(Ix(c.pid, c.data), c.items)
  }

  predicate ClearItems(caller: Ix, items: seq<Item>)
    decreases items, 0
  {
    items == [] ||
    (assert items[0].Sub? ==> items[0].call < items[0];
     && ClearItems(caller, items[1..])
     && match items[0]
        case Own(_) => true
        case Sub(c) => if IsEvent(caller, Ix(c.pid, c.data)) then Fine(c) else Clear(c))
  }

  predicate AllClear(calls: seq<Call>) {
    forall i :: 0 <= i < |calls| ==> Clear(calls[i])
  }

  // ----- the trace tells of them --------------------------------------------------------------

  lemma TracedFirst(items: seq<Item>, height: nat)
    requires items != []
    ensures TracedAll(items, height)
            == if items[0].Sub? then [Traced(items[0].call, height)] + TracedAll(items[1..], height) else TracedAll(items[1..], height)
  {
    hide Traced;
    assert [] + TracedAll(items[1..], height) == TracedAll(items[1..], height);
  }

  lemma FailuresFirst(t: Tree<Node>, rest: seq<Tree<Node>>)
    ensures FailuresAll([t] + rest) == FailuresIn(t) + FailuresAll(rest)
    ensures UnfailedAll([t] + rest) <==> Unfailed(t) && UnfailedAll(rest)
  {
    hide FailuresIn, Unfailed;
    assert ([t] + rest)[0] == t && ([t] + rest)[1..] == rest;
  }

  /** The trace of a call tells of exactly its failures. */
  lemma {:induction false} FailuresAre(c: Call, height: nat)
    requires Executable(c)
    ensures FailuresIn(Traced(c, height)) == FailedCalls(c)
    decreases c, 0
  {
    EndRecorded(c, height);
    hide OwnRecord, IsPrecompile, Trim, Blank;
    assert c.end.Succeed? || c.end.Fail?;
    FailuresBelow(c.items, height + 1);
  }

  lemma {:induction false} FailuresBelow(items: seq<Item>, height: nat)
    requires AllExecutable(items)
    ensures FailuresAll(TracedAll(items, height)) == FailedItems(items)
    decreases items, 0
  {
    if items != [] {
      hide Executable, FailedCalls, FailuresIn, Traced;
      assert items[0].Sub? ==> items[0].call < items[0];
      FailuresBelow(items[1..], height);
      TracedFirst(items, height);
      if items[0].Sub? {
        FailuresAre(items[0].call, height);
        FailuresFirst(Traced(items[0].call, height), TracedAll(items[1..], height));
      }
    }
  }

  lemma {:induction false} UnfailedFine(c: Call, height: nat)
    requires Executable(c)
    ensures Unfailed(Traced(c, height)) <==> Fine(c)
    decreases c, 0
  {
    EndRecorded(c, height);
    hide OwnRecord, IsPrecompile, Trim, Blank;
    assert c.end.Succeed? || c.end.Fail?;
    UnfailedFineAll(c.items, height + 1);
  }

  lemma {:induction false} UnfailedFineAll(items: seq<Item>, height: nat)
    requires AllExecutable(items)
    ensures UnfailedAll(TracedAll(items, height)) <==> FineItems(items)
    decreases items, 0
  {
    if items != [] {
      hide Executable, Fine, Unfailed, Traced;
      assert items[0].Sub? ==> items[0].call < items[0];
      UnfailedFineAll(items[1..], height);
      TracedFirst(items, height);
      if items[0].Sub? {
        UnfailedFine(items[0].call, height);
        FailuresFirst(Traced(items[0].call, height), TracedAll(items[1..], height));
      }
    }
  }

  lemma {:induction false} IntactClear(c: Call, height: nat)
    requires Executable(c)
    ensures Intact(Traced(c, height)) <==> Clear(c)
    decreases c, 0
  {
    hide OwnRecord, IsPrecompile, IsEvent;
    IntactClearBelow(Ix(c.pid, c.data), c.items, height + 1);
  }

  lemma {:induction false} IntactClearBelow(caller: Ix, items: seq<Item>, height: nat)
    requires AllExecutable(items)
    ensures IntactBelow(caller, TracedAll(items, height)) <==> ClearItems(caller, items)
    decreases items, 0
  {
    if items != [] {
      hide Executable, Fine, Unfailed, Intact, Clear, IsEvent, OwnRecord;
      assert items[0].Sub? ==> items[0].call < items[0];
      IntactClearBelow(caller, items[1..], height);
      TracedFirst(items, height);
      if items[0].Sub? {
        var c, rest := items[0].call, TracedAll(items[1..], height);
        IntactClear(c, height);
        UnfailedFine(c, height);
        assert ([Traced(c, height)] + rest)[1..] == rest;
      }
    }
  }

  lemma {:induction false} AllFailuresAre(calls: seq<Call>)
    requires forall i :: 0 <= i < |calls| ==> Executable(calls[i])
    ensures FailuresAll(TopTraced(calls)) == AllFailed(calls)
  {
    hide Executable, FailedCalls, FailuresIn, Traced, TopTraced;
    if calls == [] {
      assert TopTraced(calls) == [];
    } else {
      FailuresAre(calls[0], 1);
      AllFailuresAre(calls[1..]);
      assert TopTraced(calls)[1..] == TopTraced(calls[1..]);
    }
  }

  lemma {:induction false} UnrunFailures(rest: seq<Ix>)
    ensures FailuresAll(Unrun(rest)) == []
  {
    if rest != [] {
      assert Unrun(rest)[1..] == Unrun(rest[1..]);
      UnrunFailures(rest[1..]);
    }
  }

  // ----- the program named --------------------------------------------------------------------

  /** The finished trace tells of every failure of the execution if and only if no event CPI failed,
      nor anything below one. Then the program named is that of the last call that failed with the
      code, else of the last that failed; before hoisting it always is. */
  lemma OriginKept(calls: seq<Call>, rest: seq<Ix>, code: nat)
    requires forall i :: 0 <= i < |calls| ==> Executable(calls[i])
    ensures var trace, all := TopTraced(calls) + Unrun(rest), AllFailed(calls);
            && FailuresAll(trace) == all && Origin(FramesOf(trace), code) == Named(all, code)
            && (FailuresAll(HoistAll(trace)) == all <==> AllClear(calls))
            && (AllClear(calls) ==> Origin(FramesOf(HoistAll(trace)), code) == Named(all, code))
  {
    hide Executable, AllClear, Intact, Traced, TopTraced, Unrun, HoistAll, FailuresAll, FramesOf, Named, Origin, AllFailed;
    var trace := TopTraced(calls) + Unrun(rest);
    AllFailuresAre(calls);
    UnrunFailures(rest);
    FailuresConcat(TopTraced(calls), Unrun(rest));
    OriginIsNamed(trace, code);
    OriginIsNamed(HoistAll(trace), code);
    HoistAllFailures(trace);
    AllIntact(calls, rest);
  }

  lemma AllIntact(calls: seq<Call>, rest: seq<Ix>)
    requires forall i :: 0 <= i < |calls| ==> Executable(calls[i])
    ensures var trace := TopTraced(calls) + Unrun(rest);
            (forall i :: 0 <= i < |trace| ==> Intact(trace[i])) <==> AllClear(calls)
  {
    hide Executable, Clear, Intact, Traced, TopTraced, Unrun;
    var trace := TopTraced(calls) + Unrun(rest);
    forall i | 0 <= i < |calls| ensures Intact(trace[i]) <==> Clear(calls[i]) { IntactClear(calls[i], 1); }
    forall i | |calls| <= i < |trace| ensures Intact(trace[i]) { UnrunIntact(rest[i - |calls|]); }
    if forall i :: 0 <= i < |trace| ==> Intact(trace[i]) {
      assert forall i :: 0 <= i < |calls| ==> Intact(trace[i]);
    }
  }

  lemma UnrunIntact(ix: Ix)
    ensures Intact(Tree(Node(ix, FRESH), 1, []))
  {
  }

  /** From what the runtime records of a failed transaction to the program its error is named after:
      the one on whose frame the renderer resolves the code, and if no event CPI failed, nor anything
      below one, the one that failed. */
  method NameOrigin(roots: seq<Ix>, inner: seq<seq<Entry<Ix>>>, logs: seq<string>, decode: string -> Option<seq<Byte>>, code: nat)
    returns (tree: seq<Tree<Node>>, pid: Option<string>)
    ensures pid == Origin(FramesOf(tree), code)
    ensures forall calls :: Recorded(calls, roots, inner) && Logged(calls, logs, decode) && Stopped(calls) ==>
              && tree == HoistAll(TopTraced(calls) + Unrun(roots[|calls|..]))
              && ShownAtOrigin(FramesOf(tree), code)
              && (AllClear(calls) ==> pid == Named(AllFailed(calls), code))
  {
    hide Logged, ShownAtOrigin, Origin, Traced, Hoist, Run, Shape, AllClear, Fine, Aborts, Executable;
    ghost var forest;
    tree, forest := BuildCallTree(roots, inner, logs, decode);
    pid := FailingProgram(FramesOf(tree), code);
    forall calls | Recorded(calls, roots, inner) && Logged(calls, logs, decode) && Stopped(calls)
      ensures ShownAtOrigin(FramesOf(tree), code)
      ensures AllClear(calls) ==> pid == Named(AllFailed(calls), code)
    {
      ExecutionOriginShown(calls, roots[|calls|..], code);
      OriginKept(calls, roots[|calls|..], code);
    }
  }

  // ----- a failure below an event CPI ---------------------------------------------------------

  /** A program calls its own event CPI, which calls `q`, which fails with `n`; so do the two around
      it. */
  function Culprit(q: string, n: nat): Call {
    Call(q, [], [], Fail(MARK + Hex(n)))
  }

  function EventAround(p: string, q: string, n: nat): Call {
    Call(p, EVENT_TAG + seq(8, _ => 0), [Sub(Culprit(q, n))], Fail(MARK + Hex(n)))
  }

  function Outermost(p: string, q: string, n: nat): Call {
    Call(p, [], [Sub(EventAround(p, q, n))], Fail(MARK + Hex(n)))
  }

  /** Then the trace has lost the culprit, and the outer program is named. */
  lemma WrongProgramNamed(p: string, q: string, n: nat)
    requires ProgramId(p) && ProgramId(q) && !IsPrecompile(p) && !IsPrecompile(q) && n <= U32_MAX
    ensures var calls := [Outermost(p, q, n)];
            && Stopped(calls)
            && Origin(FramesOf(TopTraced(calls)), n) == Some(q)
            && Origin(FramesOf(HoistAll(TopTraced(calls))), n) == Some(p)
  {
    hide IsPrecompile, ProgramId, Origin, FramesOf, FailuresAll, TopTraced, Hoist, AllFailed, Executable, Aborts;
    var calls := [Outermost(p, q, n)];
    CulpritStops(p, q, n);
    OriginKept(calls, [], n);
    assert TopTraced(calls) + Unrun([]) == TopTraced(calls);
    CulpritFailed(p, q, n);
    CulpritLost(p, q, n);
    OriginIsNamed(HoistAll(TopTraced(calls)), n);
    NamedLast([Failure(p, Some(MARK + Hex(n))), Failure(p, Some(MARK + Hex(n)))], q, n);
    NamedLast([], p, n);
  }

  lemma NamedLast(front: seq<Failure>, p: string, n: nat)
    requires n <= U32_MAX
    ensures Named(front + [Failure(p, Some(MARK + Hex(n)))], n) == Some(p)
  {
    hide CodeInTrace, Hex;
    TraceReadsCode(n);
  }

  lemma CulpritStops(p: string, q: string, n: nat)
    requires ProgramId(p) && ProgramId(q) && !IsPrecompile(p) && !IsPrecompile(q) && n <= U32_MAX
    ensures Executable(Outermost(p, q, n)) && Aborts(Outermost(p, q, n))
  {
    hide IsPrecompile, ProgramId, Hex;
    var a, b, c := Culprit(q, n), EventAround(p, q, n), Outermost(p, q, n);
    assert RuntimeText(MARK + Hex(n));
    assert b.items[1..] == [] && c.items[1..] == [];
    assert Executable(a) && Aborts(a);
    assert AllExecutable(b.items[1..]) && FineItems(b.items[1..]);
    assert AllExecutable(b.items) && AbortsItems(b.items);
    assert Executable(b) && Aborts(b);
    assert AllExecutable(c.items[1..]) && FineItems(c.items[1..]);
    assert AllExecutable(c.items) && AbortsItems(c.items);
  }

  lemma CulpritFailed(p: string, q: string, n: nat)
    requires !IsPrecompile(p) && !IsPrecompile(q)
    ensures AllFailed([Outermost(p, q, n)])
            == [Failure(p, Some(MARK + Hex(n))), Failure(p, Some(MARK + Hex(n)))] + [Failure(q, Some(MARK + Hex(n)))]
  {
    hide IsPrecompile, Hex, Trim, Blank;
    CodeTrimmed(n);
    var a, b, c := Culprit(q, n), EventAround(p, q, n), Outermost(p, q, n);
    assert b.items[1..] == [] && c.items[1..] == [] && [c][1..] == [];
    assert FailedCalls(a) == OwnEnd(a) + [];
    assert FailedItems(b.items) == FailedCalls(a) + [];
    assert FailedItems(c.items) == FailedCalls(b) + [];
  }

  lemma CulpritLost(p: string, q: string, n: nat)
    requires Executable(Outermost(p, q, n)) && !IsPrecompile(p)
    ensures FailuresAll(HoistAll(TopTraced([Outermost(p, q, n)]))) == [] + [Failure(p, Some(MARK + Hex(n)))]
  {
    hide IsPrecompile, Executable, Hoist, Traced, FailuresIn, IsEvent, Hex;
    var t := Traced(Outermost(p, q, n), 1);
    OutermostTraced(p, q, n);
    OnlyEventBelow(t, Traced(EventAround(p, q, n), 2));
    assert HoistAll(TopTraced([Outermost(p, q, n)])) == [Hoist(t)] && [Hoist(t)][1..] == [];
  }

  lemma OutermostTraced(p: string, q: string, n: nat)
    requires Executable(Outermost(p, q, n)) && !IsPrecompile(p)
    ensures var t, child := Traced(Outermost(p, q, n), 1), Traced(EventAround(p, q, n), 2);
            && t.children == [child] && IsEvent(t.frame.ix, child.frame.ix)
            && OwnFailure(t.frame) == [Failure(p, Some(MARK + Hex(n)))]
  {
    hide IsPrecompile, Executable, Hex, Trim, Blank, OwnRecord;
    var b, c := EventAround(p, q, n), Outermost(p, q, n);
    EndRecorded(c, 1);
    CodeTrimmed(n);
    assert b.data[..8] == EVENT_TAG;
    TracedFirst(c.items, 2);
    assert c.items[1..] == [] && TracedAll(c.items[1..], 2) == [];
  }

  /** A node whose only child is an event CPI tells of nothing but its own failure. */
  lemma OnlyEventBelow(t: Tree<Node>, child: Tree<Node>)
    requires t.children == [child] && IsEvent(t.frame.ix, child.frame.ix)
    ensures FailuresIn(Hoist(t)) == OwnFailure(t.frame)
  {
    hide IsEvent;
    assert [child][1..] == [] && HoistKept(t.frame.ix, []) == [];
    assert Hoist(t).children == [] + [];
    assert OwnFailure(Hoist(t).frame) == OwnFailure(t.frame);
  }
}
