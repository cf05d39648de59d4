/** Where a failed execution went wrong, as its trace shows it. */
module ExecutionOrigin {
  import opened Wrappers
  import opened Bytes
  import opened Text
  import opened LogLines
  import opened CallTree
  import opened Attribution
  import opened Emission
  import opened EventHoist
  import opened TraceBuild
  import opened ErrorOrigin
  import opened FailureLoss

  // ----- executions that fail along one path --------------------------------------------------

  /** Every call ended well. Precompiles log nothing, so a failure of theirs is not seen. */
  predicate Fine(c: Call)
    decreases c, 0
  {
    (IsPrecompile(c.pid) || !c.end.Fail?) && FineItems(c.items)
  }

  predicate FineItems(items: seq<Item>)
    decreases items, 0
  {
    items == [] ||
    (assert items[0].Sub? ==> items[0].call < items[0];
     (items[0].Sub? ==> Fine(items[0].call)) && FineItems(items[1..]))
  }

  /** The call failed, by itself or because of the one call in it that failed. */
  ghost predicate Aborts(c: Call)
    decreases c, 0
  {
    !IsPrecompile(c.pid) && c.end.Fail? && RuntimeText(c.end.msg) && AbortsItems(c.items)
  }

  /** At most one of these calls failed. */
  ghost predicate AbortsItems(items: seq<Item>)
    decreases items, 0
  {
    items == [] ||
    (assert items[0].Sub? ==> items[0].call < items[0];
     match items[0]
     case Own(_) => AbortsItems(items[1..])
     case Sub(c) => (Fine(c) && AbortsItems(items[1..])) || (Aborts(c) && FineItems(items[1..])))
  }

  /** As the runtime executes a transaction: no instruction runs behind one that failed. */
  ghost predicate Stopped(calls: seq<Call>) {
    && (forall i :: 0 <= i < |calls| ==> Executable(calls[i]))
    && (forall i :: 0 <= i < |calls| - 1 ==> Fine(calls[i]))
    && (calls != [] ==> Fine(calls[|calls| - 1]) || Aborts(calls[|calls| - 1]))
  }

  // ----- what a call's record says of its end -------------------------------------------------

  lemma {:induction false} NoFailure(ts: seq<Tagged>)
    requires forall i :: 0 <= i < |ts| ==> !Ends(ts[i].event)
    ensures Report(ts).error == None && Report(ts).status == Unknown
  {
    if ts != [] {
      NoFailure(ts[..|ts| - 1]);
    }
  }

  lemma {:induction false} OwnsNoEnd(items: seq<Item>, i: nat, pid: string)
    requires AllExecutable(items)
    ensures forall k :: 0 <= k < |Owns(items, i, pid)| ==> !Ends(Owns(items, i, pid)[k].event)
  {
    if items != [] {
      hide Executable;
      OwnsNoEnd(items[1..], i, pid);
    }
  }

  lemma EndRecorded(c: Call, height: nat)
    requires Executable(c)
    ensures var rec := OwnRecord(c, height);
            if IsPrecompile(c.pid) || c.end.Succeed? then rec.status != Failed && rec.error.None?
            else rec.status == Failed && rec.error == if Blank(c.end.msg, Ws) then None else Some(Trim(c.end.msg, Ws))
  {
    if !IsPrecompile(c.pid) {
      hide IsPrecompile, AllExecutable, Report, Trim, Blank, Owns;
      BeforeEnd(c, height);
      ReportLast([Tagged(0, c.pid, Invoke(height))] + Owns(c.items, 0, c.pid), Tagged(0, c.pid, c.end));
    }
  }

  lemma BeforeEnd(c: Call, height: nat)
    requires Executable(c)
    ensures var rec := Report([Tagged(0, c.pid, Invoke(height))] + Owns(c.items, 0, c.pid)); rec.error == None && rec.status == Unknown
  {
    hide Report, Owns, AllExecutable;
    OwnsNoEnd(c.items, 0, c.pid);
    NoFailure([Tagged(0, c.pid, Invoke(height))] + Owns(c.items, 0, c.pid));
  }

  lemma ReportLast(front: seq<Tagged>, t: Tagged)
    ensures Report(front + [t]) == Absorb(Report(front), Meaning(t.pid, t.event))
  {
    assert (front + [t])[..|front|] == front;
  }

  /** Trimming, as the trace does, leaves a text of the runtime one. */
  lemma TextTrimmed(msg: string)
    requires RuntimeText(msg)
    ensures RuntimeText(Trim(msg, Ws))
  {
    if n :| 0 <= n <= U32_MAX && msg == MARK + Hex(n) {
      assert msg[0] == 'c' && msg[|msg| - 1] == Hex(n)[|Hex(n)| - 1];
      assert TrimStart(msg, Ws) == msg && TrimEnd(msg, Ws) == msg;
    } else {
      hide Trim, Hex;
      var i := TrimIsInside(msg);
      var l := Trim(msg, Ws);
      forall j | 0 <= j <= |l| ensures !At(l, MARK, j) { MarkAt(msg, l, i, j); }
    }
  }

  lemma MarkAt(msg: string, l: string, i: nat, j: nat)
    requires i <= |msg| && l <= msg[i..] && j <= |l|
    ensures At(l, MARK, j) ==> At(msg, MARK, i + j)
  {
    if j + |MARK| <= |l| { assert msg[i + j..i + j + |MARK|] == l[j..j + |MARK|]; }
  }

  // ----- the trace of such an execution -------------------------------------------------------

  lemma QuietCons(f: Frame, fs: seq<Frame>)
    requires Quiet(f) && Chain(fs)
    ensures Chain([f] + fs)
  {
    var all := [f] + fs;
    if forall i :: 0 <= i < |fs| ==> Quiet(fs[i]) {
      assert forall i :: 0 <= i < |all| ==> Quiet(all[i]);
    } else {
      var k :| 0 <= k < |fs| && fs[k].failed && FrameText(fs[k]) && Chain(fs[k].children)
               && forall i :: 0 <= i < |fs| && i != k ==> Quiet(fs[i]);
      FailedAt(all, k + 1);
    }
  }

  lemma FailedAt(fs: seq<Frame>, k: nat)
    requires k < |fs| && fs[k].failed && FrameText(fs[k]) && Chain(fs[k].children)
    requires forall i :: 0 <= i < |fs| && i != k ==> Quiet(fs[i])
    ensures Chain(fs)
  {
  }

  /** Nothing failed in a call that ended well. */
  lemma {:induction false} FineQuiet(c: Call, height: nat)
    requires Executable(c) && Fine(c)
    ensures Quiet(FrameOf(Hoist(Traced(c, height))))
    decreases c, 0
  {
    EndRecorded(c, height);
    hide OwnRecord;
    FineAllQuiet(Ix(c.pid, c.data), c.items, height + 1);
    var f := FrameOf(Hoist(Traced(c, height)));
    assert f.children == FramesOf(HoistKept(Ix(c.pid, c.data), TracedAll(c.items, height + 1)));
    assert c.end.Succeed? || c.end.Fail?;
  }

  lemma {:induction false} FineAllQuiet(caller: Ix, items: seq<Item>, height: nat)
    requires AllExecutable(items) && FineItems(items)
    ensures var fs := FramesOf(HoistKept(caller, TracedAll(items, height)));
            forall i :: 0 <= i < |fs| ==> Quiet(fs[i])
    decreases items, 0
  {
    if items != [] {
      hide Executable, Fine, Traced, Hoist, FrameOf, Quiet;
      assert items[0].Sub? ==> items[0].call < items[0];
      FineAllQuiet(caller, items[1..], height);
      FramesCons(caller, items, height);
      if items[0].Sub? { FineQuiet(items[0].call, height); }
    }
  }

  /** The frames of a call's children, one item at a time. */
  lemma FramesCons(caller: Ix, items: seq<Item>, height: nat)
    requires items != []
    ensures var rest := FramesOf(HoistKept(caller, TracedAll(items[1..], height)));
            FramesOf(HoistKept(caller, TracedAll(items, height)))
            == if items[0].Sub? && !IsEvent(caller, Ix(items[0].call.pid, items[0].call.data))
               then [FrameOf(Hoist(Traced(items[0].call, height)))] + rest
               else rest
  {
    hide Hoist, FrameOf, IsEvent, OwnRecord;
    var rest := TracedAll(items[1..], height);
    if items[0].Sub? {
      var t := Traced(items[0].call, height);
      assert ([t] + rest)[1..] == rest && TracedAll(items, height) == [t] + rest;
      var kept := HoistKept(caller, rest);
      assert ([Hoist(t)] + kept)[1..] == kept && [] + kept == kept;
    } else {
      assert [] + rest == rest;
    }
  }

  /** A failed call fails along one path. */
  lemma {:induction false} AbortsChain(c: Call, height: nat)
    requires Executable(c) && Aborts(c)
    ensures var f := FrameOf(Hoist(Traced(c, height))); f.failed && FrameText(f) && Chain(f.children)
    decreases c, 0
  {
    EndRecorded(c, height);
    TextTrimmed(c.end.msg);
    hide OwnRecord, RuntimeText, Trim;
    AbortsAllChain(Ix(c.pid, c.data), c.items, height + 1);
  }

  lemma {:induction false} AbortsAllChain(caller: Ix, items: seq<Item>, height: nat)
    requires AllExecutable(items) && (AbortsItems(items) || FineItems(items))
    ensures Chain(FramesOf(HoistKept(caller, TracedAll(items, height))))
    decreases items, 1
  {
    if FineItems(items) {
      FineAllQuiet(caller, items, height);
    } else {
      hide Executable, Fine, Aborts, Traced, Hoist, FrameOf, Quiet, FrameText;
      assert items[0].Sub? ==> items[0].call < items[0];
      FramesCons(caller, items, height);
      var rest := FramesOf(HoistKept(caller, TracedAll(items[1..], height)));
      if items[0].Own? || Fine(items[0].call) {
        AbortsAllChain(caller, items[1..], height);
        if items[0].Sub? {
          FineQuiet(items[0].call, height);
          QuietCons(FrameOf(Hoist(Traced(items[0].call, height))), rest);
        }
      } else {
        FineAllQuiet(caller, items[1..], height);
        AbortsChain(items[0].call, height);
        FailedAt([FrameOf(Hoist(Traced(items[0].call, height)))] + rest, 0);
      }
    }
  }

  /** In the trace of a transaction, as the runtime executes one, instructions behind the failed one
      included, the renderer shows the failure where the search finds its origin. */
  lemma ExecutionOriginShown(calls: seq<Call>, rest: seq<Ix>, code: nat)
    requires Stopped(calls)
    ensures var fs := FramesOf(HoistAll(TopTraced(calls) + Unrun(rest))); Chain(fs) && ShownAtOrigin(fs, code)
  {
    hide Executable, Fine, Aborts, Traced, Hoist, FrameOf, Quiet, FrameText, ShownAtOrigin;
    var fs := FramesOf(HoistAll(TopTraced(calls) + Unrun(rest)));
    var n := |calls| - 1;
    forall i | 0 <= i < |fs| && (i > n || Fine(calls[i])) ensures Quiet(fs[i]) {
      if i > n { UnrunQuiet(rest[i - |calls|]); } else { FineQuiet(calls[i], 1); }
    }
    if calls != [] && !Fine(calls[n]) {
      AbortsChain(calls[n], 1);
      FailedAt(fs, n);
    }
    OriginIsShown(fs, code);
  }

  lemma UnrunQuiet(ix: Ix)
    ensures Quiet(FrameOf(Hoist(Tree(Node(ix, FRESH), 1, []))))
  {
  }
}
