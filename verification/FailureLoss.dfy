/** The failures a trace tells of, and those hoisting takes away: an event CPI that failed is dropped
    with the failing path below it. */
module FailureLoss {
  import opened Wrappers
  import opened CallTree
  import opened Attribution
  import opened EventHoist
  import opened ErrorOrigin

  // ----- the frames of a trace ----------------------------------------------------------------

  /** What the search and the renderer see of a node. */
  function FrameOf(t: Tree<Node>): Frame
    decreases t, 0
  {
    Frame(t.frame.ix.pid, t.frame.rec.status == Failed, t.frame.rec.error, FramesOf(t.children))
  }

  function FramesOf(ts: seq<Tree<Node>>): (r: seq<Frame>)
    ensures |r| == |ts| && forall i :: 0 <= i < |ts| ==> r[i] == FrameOf(ts[i])
    decreases ts, 0
  {
    if ts == [] then [] else [FrameOf(ts[0])] + FramesOf(ts[1..])
  }

  // ----- failures -----------------------------------------------------------------------------

  datatype Failure = Failure(pid: string, error: Option<string>)

  /** The failed nodes of a tree in execution order. */
  function FailuresIn(t: Tree<Node>): seq<Failure>
    decreases t, 0
  {
    OwnFailure(t.frame) + FailuresAll(t.children)
  }

  function FailuresAll(ts: seq<Tree<Node>>): seq<Failure>
    decreases ts, 0
  {
    if ts == [] then [] else FailuresIn(ts[0]) + FailuresAll(ts[1..])
  }

  function OwnFailure(n: Node): seq<Failure> {
    if n.rec.status == Failed then [Failure(n.ix.pid, n.rec.error)] else []
  }

  /** The program of the last failure that logged `code`. */
  function LastLogging(xs: seq<Failure>, code: nat): Option<string> {
    if xs == [] then None
    else
      var x := xs[|xs| - 1];
      if x.error.Some? && CodeInTrace(x.error.value) == Some(code) then Some(x.pid) else LastLogging(xs[..|xs| - 1], code)
  }

  /** The program of the last failure that logged `code`, else of the last failure. */
  function Named(xs: seq<Failure>, code: nat): Option<string> {
    var logged := LastLogging(xs, code);
    if logged.Some? then logged else if xs == [] then None else Some(xs[|xs| - 1].pid)
  }

  function Told(fs: seq<Frame>): (r: seq<Failure>)
    ensures |r| == |fs| && forall i :: 0 <= i < |fs| ==> r[i] == Failure(fs[i].pid, fs[i].error)
  {
    seq(|fs|, (i: nat) requires i < |fs| => Failure(fs[i].pid, fs[i].error))
  }

  lemma {:induction false} FailedInTold(t: Tree<Node>)
    ensures Told(FailedIn(FrameOf(t))) == FailuresIn(t)
    decreases t, 0
  {
    var f := FrameOf(t);
    FailedFramesTold(t.children);
    ToldConcat(if f.failed then [f] else [], FailedFrames(f.children));
    assert Told(if f.failed then [f] else []) == OwnFailure(t.frame);
  }

  lemma {:induction false} FailedFramesTold(ts: seq<Tree<Node>>)
    ensures Told(FailedFrames(FramesOf(ts))) == FailuresAll(ts)
    decreases ts, 0
  {
    if ts != [] {
      hide FailedIn, FrameOf, FailuresIn;
      FailedInTold(ts[0]);
      FailedFramesTold(ts[1..]);
      assert FramesOf(ts)[1..] == FramesOf(ts[1..]);
      ToldConcat(FailedIn(FrameOf(ts[0])), FailedFrames(FramesOf(ts[1..])));
    }
  }

  lemma ToldConcat(a: seq<Frame>, b: seq<Frame>)
    ensures Told(a + b) == Told(a) + Told(b)
  {
  }

  lemma {:induction false} LastLoggingIs(fs: seq<Frame>, code: nat)
    ensures LastPid(fs, code, None) == LastLogging(Told(fs), code)
  {
    if fs != [] {
      var n := |fs| - 1;
      LastLoggingIs(fs[..n], code);
      assert Codes(fs)[..n] == Codes(fs[..n]) && Told(fs)[..n] == Told(fs[..n]);
    }
  }

  /** The search depends on nothing but the failures. */
  lemma OriginIsNamed(ts: seq<Tree<Node>>, code: nat)
    ensures Origin(FramesOf(ts), code) == Named(FailuresAll(ts), code)
  {
    hide FailuresAll, FramesOf, FailedFrames, LastLogging, CodeInTrace;
    FailedFramesTold(ts);
    LastLoggingIs(FailedFrames(FramesOf(ts)), code);
  }

  // ----- what hoisting takes away -------------------------------------------------------------

  /** Nothing failed in this tree. */
  predicate Unfailed(t: Tree<Node>)
    decreases t, 0
  {
    t.frame.rec.status != Failed && UnfailedAll(t.children)
  }

  predicate UnfailedAll(ts: seq<Tree<Node>>)
    decreases ts, 0
  {
    ts == [] || (Unfailed(ts[0]) && UnfailedAll(ts[1..]))
  }

  /** No event CPI failed, nor anything below one. */
  predicate Intact(t: Tree<Node>)
    decreases t, 0
  {
    IntactBelow(t.frame.ix, t.children)
  }

  predicate IntactBelow(parent: Ix, ts: seq<Tree<Node>>)
    decreases ts, 0
  {
    ts == [] || ((if IsEvent(parent, ts[0].frame.ix) then Unfailed(ts[0]) else Intact(ts[0])) && IntactBelow(parent, ts[1..]))
  }

  lemma {:induction false} UnfailedIff(t: Tree<Node>)
    ensures FailuresIn(t) == [] <==> Unfailed(t)
    decreases t, 0
  {
    UnfailedAllIff(t.children);
  }

  lemma {:induction false} UnfailedAllIff(ts: seq<Tree<Node>>)
    ensures FailuresAll(ts) == [] <==> UnfailedAll(ts)
    decreases ts, 0
  {
    if ts != [] {
      hide FailuresIn, Unfailed;
      UnfailedIff(ts[0]);
      UnfailedAllIff(ts[1..]);
    }
  }

  /** The failures of a hoisted tree are those of the tree, in the same order, if and only if no event
      CPI failed, nor anything below one; otherwise there are fewer. */
  lemma {:induction false} HoistFailuresIff(t: Tree<Node>)
    ensures FailuresIn(Hoist(t)) == FailuresIn(t) <==> Intact(t)
    ensures Intact(t) || |FailuresIn(Hoist(t))| < |FailuresIn(t)|
    decreases t, 0
  {
    hide IsEvent;
    HoistFailuresBelow(t.frame.ix, t.children);
    assert OwnFailure(Hoist(t).frame) == OwnFailure(t.frame);
  }

  lemma {:induction false} HoistFailuresBelow(parent: Ix, ts: seq<Tree<Node>>)
    ensures var a, b := FailuresAll(HoistKept(parent, ts)), FailuresAll(ts);
            if IntactBelow(parent, ts) then a == b else |a| < |b|
    decreases ts, 0
  {
    hide IsEvent, FailuresIn, Hoist, Intact, Unfailed;
    if ts != [] {
      HoistFailuresBelow(parent, ts[1..]);
      var kept := HoistKept(parent, ts[1..]);
      if IsEvent(parent, ts[0].frame.ix) {
        UnfailedIff(ts[0]);
        assert [] + kept == kept;
      } else {
        HoistFailuresIff(ts[0]);
        assert ([Hoist(ts[0])] + kept)[1..] == kept;
      }
    }
  }

  lemma {:induction false} HoistAllFailures(ts: seq<Tree<Node>>)
    ensures var a, b := FailuresAll(HoistAll(ts)), FailuresAll(ts);
            if forall i :: 0 <= i < |ts| ==> Intact(ts[i]) then a == b else |a| < |b|
  {
    hide FailuresIn, Hoist, Intact;
    if ts != [] {
      assert HoistAll(ts)[1..] == HoistAll(ts[1..]);
      HoistFailuresIff(ts[0]);
      HoistAllFailures(ts[1..]);
      assert (forall i :: 0 <= i < |ts| ==> Intact(ts[i])) <==>
             Intact(ts[0]) && forall i :: 0 <= i < |ts[1..]| ==> Intact(ts[1..][i]);
    }
  }

  lemma {:induction false} FailuresConcat(a: seq<Tree<Node>>, b: seq<Tree<Node>>)
    ensures FailuresAll(a + b) == FailuresAll(a) + FailuresAll(b)
    decreases |a|
  {
    hide FailuresIn;
    if a == [] {
      assert a + b == b;
    } else {
      assert (a + b)[1..] == a[1..] + b;
      FailuresConcat(a[1..], b);
    }
  }
}
