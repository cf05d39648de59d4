/** `attach_logs`: each line of the flat log stream goes to the call-tree node that emitted it. */
module Attribution {
  import opened Wrappers
  import opened Bytes
  import opened LogLines

  datatype Status = Success | Failed | Unknown

  /** What the stream tells about one node. */
  datatype Rec = Rec(logs: seq<string>, units: Option<nat>, status: Status, error: Option<string>,
                     ret: Option<seq<Byte>>, events: seq<seq<Byte>>)

  const FRESH: Rec := Rec([], None, Unknown, None, None, [])

  /** Open frames by pre-order index, innermost last; the node the next `invoke` opens; and
      whether the stream has followed the tree so far. */
  datatype State = State(recs: seq<Rec>, stack: seq<nat>, next: nat, aligned: bool)

  const PRECOMPILES: set<string> := {
    "Ed25519SigVerify111111111111111111111111111",
    "KeccakSecp256k11111111111111111111111111111",
    "Secp256r1SigVerify1111111111111111111111111"
  }

  predicate IsPrecompile(pid: string) {
    pid in PRECOMPILES
  }

  /** Precompiles run without log markers: step over their nodes. */
  function PastPrecompiles(pids: seq<string>, next: nat): (r: nat)
    requires next <= |pids|
    ensures next <= r <= |pids|
    ensures forall i :: next <= i < r ==> IsPrecompile(pids[i])
    ensures r < |pids| ==> !IsPrecompile(pids[r])
    decreases |pids| - next
  {
    if next < |pids| && IsPrecompile(pids[next]) then PastPrecompiles(pids, next + 1) else next
  }

  function Absorb(r: Rec, line: Line): Rec {
    match line
    case ReturnLine(data) => if data.Some? then r.(ret := data) else r
    case DataLine(data) => if data.Some? then r.(events := r.events + [data.value]) else r
    case ConsumedLine(units) => r.(units := units)
    case SuccessLine => r.(status := Success)
    case FailedLine(error) => r.(status := Failed, error := error)
    case TextLine(msg) => r.(logs := r.logs + [msg])
    case _ => r
  }

  predicate Closes(line: Line) {
    line.SuccessLine? || line.FailedLine?
  }

  /** Frames are open in order, all behind the cursor, and the cursor is in range. */
  predicate Valid(n: nat, st: State) {
    && |st.recs| == n && st.next <= n
    && (forall i :: 0 <= i < |st.stack| ==> st.stack[i] < st.next)
    && (forall i, j :: 0 <= i < j < |st.stack| ==> st.stack[i] < st.stack[j])
  }

  /** One line. Text goes to the open frame even after the stream has diverged; nothing else
      counts then. */
  function Step(pids: seq<string>, st: State, line: Line): (r: State)
    requires Valid(|pids|, st)
    ensures Valid(|pids|, r)
  {
    match line
    case Skip => st
    case InvokeLine(pid) =>
      if !st.aligned then st
      else
        var next := PastPrecompiles(pids, st.next);
        if next >= |pids| || pids[next] != pid then st.(next := next, aligned := false)
        else st.(stack := st.stack + [next], next := next + 1)
    case _ =>
      if st.stack == [] || (!st.aligned && !line.TextLine?) then st
      else
        var top := st.stack[|st.stack| - 1];
        var stack := if Closes(line) then st.stack[..|st.stack| - 1] else st.stack;
        st.(recs := st.recs[top := Absorb(st.recs[top], line)], stack := stack)
  }

  function Start(n: nat): (st: State)
    ensures Valid(n, st)
  {
    State(seq(n, _ => FRESH), [], 0, true)
  }

  function Run(pids: seq<string>, lines: seq<Line>): (r: State)
    ensures Valid(|pids|, r)
  {
    if lines == [] then Start(|pids|)
    else Step(pids, Run(pids, lines[..|lines| - 1]), lines[|lines| - 1])
  }

  function Lines(logs: seq<string>, decode: string -> Option<seq<Byte>>): (r: seq<Line>)
    ensures |r| == |logs| && forall i :: 0 <= i < |logs| ==> r[i] == Classify(logs[i], decode)
  {
    seq(|logs|, (i: nat) requires i < |logs| => Classify(logs[i], decode))
  }

  method SkipPrecompiles(pids: seq<string>, start: nat) returns (next: nat)
    requires start <= |pids|
    ensures next == PastPrecompiles(pids, start)
    ensures start <= next <= |pids| && forall i :: start <= i < next ==> IsPrecompile(pids[i])
    ensures next < |pids| ==> !IsPrecompile(pids[next])
  {
    next := start;
    while next < |pids| && IsPrecompile(pids[next])
      invariant next <= |pids| && PastPrecompiles(pids, next) == PastPrecompiles(pids, start)
    {
      next := next + 1;
    }
  }

  /** `attach_logs` up to the distribution over the tree, on the pre-order list of program ids. */
  method AttachLogs(pids: seq<string>, logs: seq<string>, decode: string -> Option<seq<Byte>>) returns (recs: seq<Rec>)
    ensures recs == Run(pids, Lines(logs, decode)).recs
  {
    hide Classify, Absorb, PastPrecompiles, IsPrecompile;
    recs := seq(|pids|, _ => FRESH);
    var stack: seq<nat>, next: nat, aligned := [], 0, true;
    ghost var lines := Lines(logs, decode);
    for k := 0 to |logs|
      invariant State(recs, stack, next, aligned) == Run(pids, lines[..k])
    {
      ghost var before := State(recs, stack, next, aligned);
      assert lines[..k + 1][..k] == lines[..k];
      var line := Classify(logs[k], decode);
      if line.InvokeLine? {
        if aligned {
          next := SkipPrecompiles(pids, next);
          if next >= |pids| || pids[next] != line.pid {
            aligned := false;
          } else {
            stack := stack + [next];
            next := next + 1;
          }
        }
      } else if !line.Skip? && stack != [] && (aligned || line.TextLine?) {
        var top := stack[|stack| - 1];
        recs := recs[top := Absorb(recs[top], line)];
        if Closes(line) { stack := stack[..|stack| - 1]; }
      }
      assert State(recs, stack, next, aligned) == Step(pids, before, lines[k]);
    }
    assert lines[..|logs|] == lines;
  }

  // ----- arbitrary streams --------------------------------------------------------------------

  lemma RunPrefix(pids: seq<string>, lines: seq<Line>, k: nat)
    requires k < |lines|
    ensures Run(pids, lines[..k + 1]) == Step(pids, Run(pids, lines[..k]), lines[k])
  {
    assert lines[..k + 1][..k] == lines[..k];
  }

  /** From `st` on nothing has happened but that the innermost open frame received `texts`. */
  predicate OnlyText(st: State, end: State, texts: seq<string>) {
    && end.aligned == st.aligned && end.next == st.next && end.stack == st.stack && |end.recs| == |st.recs|
    && forall j :: 0 <= j < |st.recs| ==>
         end.recs[j] == if Owner(st) == Some(j) then st.recs[j].(logs := st.recs[j].logs + texts) else st.recs[j]
  }

  /** On any stream, however corrupt: the cursor only moves on; and once the stream has diverged
      from the tree, cursor, open frames and records stand still, except that the innermost open
      frame receives all the text still to come. */
  lemma {:induction false} AfterDivergence(pids: seq<string>, lines: seq<Line>, k: nat)
    requires k <= |lines|
    ensures Run(pids, lines[..k]).next <= Run(pids, lines).next
    ensures var st := Run(pids, lines[..k]); !st.aligned ==> OnlyText(st, Run(pids, lines), Texts(lines[k..]))
    decreases |lines|
  {
    hide OnlyText, Step;
    if k == |lines| {
      assert lines[..k] == lines && lines[k..] == [];
      NoText(Run(pids, lines));
    } else {
      var n := |lines| - 1;
      assert lines[..n][..k] == lines[..k] && lines[k..][..n - k] == lines[..n][k..] && lines[k..][n - k] == lines[n];
      AfterDivergence(pids, lines[..n], k);
      StepForward(pids, Run(pids, lines[..n]), lines[n]);
      var st, before := Run(pids, lines[..k]), Run(pids, lines[..n]);
      if !st.aligned { LateLine(pids, st, before, lines[n], Texts(lines[..n][k..])); }
    }
  }

  lemma StepForward(pids: seq<string>, st: State, line: Line)
    requires Valid(|pids|, st)
    ensures st.next <= Step(pids, st, line).next
  {
  }

  lemma NoText(st: State)
    ensures OnlyText(st, st, [])
  {
    forall j | 0 <= j < |st.recs| ensures st.recs[j].(logs := st.recs[j].logs + []) == st.recs[j] {
      assert st.recs[j].logs + [] == st.recs[j].logs;
    }
  }

  /** One line behind the divergence. */
  lemma LateLine(pids: seq<string>, st: State, before: State, line: Line, texts: seq<string>)
    requires Valid(|pids|, st) && Valid(|pids|, before) && !st.aligned && OnlyText(st, before, texts)
    ensures OnlyText(st, Step(pids, before, line), texts + if line.TextLine? then [line.msg] else [])
  {
    assert texts + [] == texts;
    if line.TextLine? && st.stack != [] {
      var logs := st.recs[st.stack[|st.stack| - 1]].logs;
      assert logs + (texts + [line.msg]) == logs + texts + [line.msg];
    }
  }

  /** Streams do diverge in open frames: any aligned stream with an open frame, continued by an
      invocation the tree does not have there. The next text goes to the frame that was open. */
  lemma StrayText(pids: seq<string>, lines: seq<Line>, pid: string, msg: string)
    requires var st := Run(pids, lines); st.aligned && st.stack != []
    requires var next := PastPrecompiles(pids, Run(pids, lines).next); next == |pids| || pids[next] != pid
    ensures var st, more := Run(pids, lines), lines + [InvokeLine(pid)];
            var top, end := st.stack[|st.stack| - 1], Run(pids, more + [TextLine(msg)]);
            !Run(pids, more).aligned && !end.aligned && end.recs[top].logs == st.recs[top].logs + [msg]
  {
    hide Run, IsPrecompile;
    RunLast(pids, lines, InvokeLine(pid));
    RunLast(pids, lines + [InvokeLine(pid)], TextLine(msg));
  }

  lemma RunLast(pids: seq<string>, lines: seq<Line>, line: Line)
    ensures Run(pids, lines + [line]) == Step(pids, Run(pids, lines), line)
  {
    hide Step;
    assert (lines + [line])[..|lines|] == lines;
  }

  /** No node at or beyond the cursor has received anything. */
  lemma {:induction false} BeyondCursor(pids: seq<string>, lines: seq<Line>, j: nat)
    requires Run(pids, lines).next <= j < |pids|
    ensures Run(pids, lines).recs[j] == FRESH
  {
    if lines != [] {
      var n := |lines| - 1;
      RunPrefix(pids, lines, n);
      assert lines[..n + 1] == lines;
      BeyondCursor(pids, lines[..n], j);
    }
  }

  /** The texts of a stream, and where they went: `owner` names the node of each, if any. */
  ghost predicate Owned(recs: seq<Rec>, texts: seq<(Option<nat>, string)>) {
    forall j :: 0 <= j < |recs| ==> recs[j].logs == Of(texts, j)
  }

  function Of(texts: seq<(Option<nat>, string)>, j: nat): seq<string> {
    if texts == [] then []
    else
      var (owner, msg) := texts[|texts| - 1];
      Of(texts[..|texts| - 1], j) + if owner == Some(j) then [msg] else []
  }

  function Texts(lines: seq<Line>): seq<string> {
    if lines == [] then []
    else
      var last := lines[|lines| - 1];
      Texts(lines[..|lines| - 1]) + if last.TextLine? then [last.msg] else []
  }

  function Msgs(texts: seq<(Option<nat>, string)>): (r: seq<string>)
    ensures |r| == |texts|
  {
    seq(|texts|, (i: nat) requires i < |texts| => texts[i].1)
  }

  /** Every text line of any stream lands in at most one node, in order, and nodes hold no other
      text. */
  lemma {:induction false} TextOnce(pids: seq<string>, lines: seq<Line>) returns (texts: seq<(Option<nat>, string)>)
    ensures Msgs(texts) == Texts(lines)
    ensures Owned(Run(pids, lines).recs, texts)
  {
    if lines == [] {
      texts := [];
    } else {
      var n := |lines| - 1;
      texts := TextOnce(pids, lines[..n]);
      ghost var before := texts;
      texts := if lines[n].TextLine? then texts + [(Owner(Run(pids, lines[..n])), lines[n].msg)] else texts;
      if lines[n].TextLine? {
        assert texts[..|texts| - 1] == before && Msgs(texts) == Msgs(before) + [lines[n].msg];
      }
      OwnedStep(pids, Run(pids, lines[..n]), lines[n], texts);
    }
  }

  /** The node a text line goes to. */
  function Owner(st: State): Option<nat> {
    if st.stack == [] then None else Some(st.stack[|st.stack| - 1])
  }

  lemma OwnedStep(pids: seq<string>, st: State, line: Line, texts: seq<(Option<nat>, string)>)
    requires Valid(|pids|, st)
    requires line.TextLine? ==> texts != [] && texts[|texts| - 1] == (Owner(st), line.msg)
    requires Owned(st.recs, if line.TextLine? then texts[..|texts| - 1] else texts)
    ensures Owned(Step(pids, st, line).recs, texts)
  {
    var recs := Step(pids, st, line).recs;
    forall j | 0 <= j < |recs| ensures recs[j].logs == Of(texts, j) {
      assert recs[j].logs == st.recs[j].logs + if line.TextLine? && Owner(st) == Some(j) then [line.msg] else [];
    }
  }
}
