/** Which debugger requests are made, and what becomes of the decisions on them. */
module MpRequests {
  import opened Wrappers
  import opened MpRunner
  import opened MpSafety
  import opened MpSteps
  import opened MpTheorems

  // ----- what a script calls for --------------------------------------------------------------

  /** An exception of the current test has been put to the server already. */
  predicate Handled(acts: seq<Action>) {
    exists k :: 0 <= k < |acts| && acts[k].Raise? && forall m :: k < m < |acts| ==> !acts[m].Setup?
  }

  /** The requests a script calls for: every breakpoint, and the first exception of every test. */
  function Requests(acts: seq<Action>): seq<Kind> {
    if acts == [] then []
    else
      var n := |acts| - 1;
      Requests(acts[..n])
      + if acts[n].Break? then [Breakpoint] else if acts[n].Raise? && !Handled(acts[..n]) then [Exception] else []
  }

  lemma HandledMore(acts: seq<Action>, a: Action)
    ensures Handled(acts + [a]) <==> a.Raise? || (Handled(acts) && !a.Setup?)
  {
    var more, n := acts + [a], |acts|;
    assert more[n] == a && forall k :: 0 <= k < n ==> more[k] == acts[k];
    if Handled(acts) && !a.Setup? {
      var k :| 0 <= k < n && acts[k].Raise? && forall m :: k < m < n ==> !acts[m].Setup?;
      assert more[k].Raise?;
    }
    if a.Raise? { assert more[n].Raise?; }
  }

  lemma RequestsMore(acts: seq<Action>, a: Action)
    ensures Requests(acts + [a])
            == Requests(acts) + if a.Break? then [Breakpoint] else if a.Raise? && !Handled(acts) then [Exception] else []
  {
    hide Handled;
    assert (acts + [a])[..|acts|] == acts;
  }

  // ----- what is in the queue, and what the server heard --------------------------------------

  /** Requests among a worker's messages. */
  function Asking(own: seq<Body>): seq<Kind> {
    if own == [] then []
    else
      var n := |own| - 1;
      Asking(own[..n]) + if own[n].Ask? then [own[n].kind] else []
  }

  lemma AskingMore(own: seq<Body>, b: Body)
    ensures Asking(own + [b]) == Asking(own) + if b.Ask? then [b.kind] else []
  {
    assert (own + [b])[..|own|] == own;
  }

  lemma {:induction false} AskingFirst(own: seq<Body>)
    requires own != []
    ensures Asking(own) == (if own[0].Ask? then [own[0].kind] else []) + Asking(own[1..])
  {
    var n := |own| - 1;
    if n == 0 {
      assert own[..0] == [] && own[1..] == [];
    } else {
      AskingFirst(own[..n]);
      assert own[..n][1..] == own[1..][..n - 1] && own[1..][n - 1] == own[n];
    }
  }

  /** The request of worker `i` that a step from `s` takes off the queue, with the decision on it. */
  function HeardIn(s: State, step: Step, i: nat): seq<(Kind, bool)> {
    if step.Get? && s.queue != [] && s.queue[0].from == i && s.queue[0].body.Ask? then [(s.queue[0].body.kind, step.attach)] else []
  }

  /** The decision that worker `i` takes out of its pipe, with what it had asked for. */
  function TakenIn(s: State, step: Step, i: nat): seq<(Kind, bool)> {
    if step == TakeDecision(i) && i < |s.ws| && s.ws[i].phase.Asked? && s.ws[i].toWorker != [] && s.ws[i].toWorker[0].Decision?
    then [(s.ws[i].phase.kind, s.ws[i].toWorker[0].attach)]
    else []
  }

  function Heard(states: seq<State>, steps: seq<Step>, i: nat, k: nat): seq<(Kind, bool)>
    requires k <= |steps| < |states|
  {
    if k == 0 then [] else Heard(states, steps, i, k - 1) + HeardIn(states[k - 1], steps[k - 1], i)
  }

  function Taken(states: seq<State>, steps: seq<Step>, i: nat, k: nat): seq<(Kind, bool)>
    requires k <= |steps| < |states|
  {
    if k == 0 then [] else Taken(states, steps, i, k - 1) + TakenIn(states[k - 1], steps[k - 1], i)
  }

  function Kinds(xs: seq<(Kind, bool)>): (r: seq<Kind>)
    ensures |r| == |xs| && forall k :: 0 <= k < |xs| ==> r[k] == xs[k].0
  {
    seq(|xs|, (k: nat) requires k < |xs| => xs[k].0)
  }

  // ----- one worker ---------------------------------------------------------------------------

  /** A decision on its way to the worker. */
  function OnItsWay(w: Worker): seq<(Kind, bool)> {
    if w.phase.Asked? && w.toWorker != [] && w.toWorker[0].Decision? then [(w.phase.kind, w.toWorker[0].attach)] else []
  }

  /** The last decision was to attach at a breakpoint. */
  predicate Attached(taken: seq<(Kind, bool)>) {
    taken != [] && taken[|taken| - 1] == (Breakpoint, true)
  }

  /** The worker has asked for what the done part of its script calls for; the server has heard of it
      what is not in the queue; the worker has taken every decision that is not on its way; and it
      owes an ack of its own exactly while attached at a breakpoint. */
  ghost predicate Heeds(cfg: Config, i: nat, w: Worker, own: seq<Body>, heard: seq<(Kind, bool)>, taken: seq<(Kind, bool)>)
    requires cfg.procs >= 1
  {
    if w.phase.Collecting? || w.phase.AwaitIndexes? then
      w.asks == 0 && w.armed && !w.pending && heard == [] && taken == [] && Asking(own) == []
    else
      var script := Script(cfg, i);
      var n := |script| - |w.todo|;
      && 0 <= n && w.todo == script[n..]
      && w.asks == |Requests(script[..n])| && (w.armed <==> !Handled(script[..n]))
      && Requests(script[..n]) == Kinds(heard) + Asking(own)
      && heard == taken + OnItsWay(w)
      && (w.phase.Handling? ==> taken != [] && taken[|taken| - 1].0 == w.phase.kind)
      && (w.pending <==> w.phase.Handling? && Attached(taken))
  }

  /** Nothing of this has changed. */
  predicate Alike(w: Worker, w': Worker, own: seq<Body>, own': seq<Body>) {
    && w'.phase == w.phase && w'.todo == w.todo && w'.asks == w.asks && w'.armed == w.armed && w'.pending == w.pending
    && w'.toWorker == w.toWorker && Asking(own') == Asking(own)
  }

  lemma HeedsAlike(cfg: Config, i: nat, w: Worker, w': Worker, own: seq<Body>, own': seq<Body>,
                   heard: seq<(Kind, bool)>, taken: seq<(Kind, bool)>)
    requires cfg.procs >= 1 && Heeds(cfg, i, w, own, heard, taken) && Alike(w, w', own, own')
    ensures Heeds(cfg, i, w', own', heard, taken)
  {
    hide Requests, Handled, Script, Asking;
  }

  /** Before its script starts. */
  lemma HeedsBefore(cfg: Config, i: nat, w: Worker, w': Worker, own: seq<Body>, heard: seq<(Kind, bool)>, taken: seq<(Kind, bool)>)
    requires cfg.procs >= 1 && Heeds(cfg, i, w, own, heard, taken) && (w.phase.Collecting? || w.phase.AwaitIndexes?)
    requires w'.asks == w.asks && w'.armed == w.armed && w'.pending == w.pending
    requires || w'.phase.Collecting? || w'.phase.AwaitIndexes?
             || (w'.phase == Running && w'.todo == Script(cfg, i))
    ensures Heeds(cfg, i, w', own, heard, taken)
  {
    hide Script, Asking;
    if w'.phase == Running {
      assert Script(cfg, i)[..0] == [] && Script(cfg, i)[0..] == Script(cfg, i);
      assert Kinds([]) + [] == [] && [] + OnItsWay(w') == [];
    }
  }

  /** One action is done. */
  lemma HeedsActed(cfg: Config, i: nat, w: Worker, w': Worker, own: seq<Body>, own': seq<Body>,
                   heard: seq<(Kind, bool)>, taken: seq<(Kind, bool)>)
    requires cfg.procs >= 1 && Heeds(cfg, i, w, own, heard, taken) && w.phase == Running && w.todo != [] && w'.todo == w.todo[1..]
    requires w'.pending == w.pending && w'.toWorker == w.toWorker == []
    requires match w.todo[0]
             case Break =>
               w'.phase == Asked(Breakpoint) && w'.asks == w.asks + 1 && w'.armed == w.armed && Asking(own') == Asking(own) + [Breakpoint]
             case Raise =>
               if w.armed
               then w'.phase == Asked(Exception) && w'.asks == w.asks + 1 && !w'.armed && Asking(own') == Asking(own) + [Exception]
               else w'.phase == Running && w'.asks == w.asks && !w'.armed && Asking(own') == Asking(own)
             case Setup => w'.phase == Running && w'.asks == w.asks && w'.armed && Asking(own') == Asking(own)
             case _ => w'.phase == Running && w'.asks == w.asks && w'.armed == w.armed && Asking(own') == Asking(own)
    ensures Heeds(cfg, i, w', own', heard, taken)
  {
    hide Requests, Handled, Script, Asking, Kinds;
    var script := Script(cfg, i);
    var n := |script| - |w.todo|;
    assert w.todo[0] == script[n] && script[..n] + [script[n]] == script[..n + 1] && w'.todo == script[n + 1..];
    RequestsMore(script[..n], script[n]);
    HandledMore(script[..n], script[n]);
    Grouped(Kinds(heard), Asking(own), if w'.phase.Asked? then [w'.phase.kind] else []);
    assert Asking(own) + [] == Asking(own);
  }

  lemma Grouped<T>(a: seq<T>, b: seq<T>, c: seq<T>)
    ensures a + b + c == a + (b + c)
  {
  }

  /** A request is heard and decided. */
  lemma HeedsHeard(cfg: Config, i: nat, w: Worker, w': Worker, own: seq<Body>, heard: seq<(Kind, bool)>, taken: seq<(Kind, bool)>, attach: bool)
    requires cfg.procs >= 1 && Heeds(cfg, i, w, own, heard, taken) && own != [] && own[0].Ask?
    requires w.phase == Asked(own[0].kind) && w.toWorker == [] && w' == w.(toWorker := [Decision(attach)])
    ensures Heeds(cfg, i, w', own[1..], heard + [(own[0].kind, attach)], taken)
  {
    hide Requests, Handled, Script, Asking;
    AskingFirst(own);
    var more := heard + [(own[0].kind, attach)];
    assert Kinds(more) == Kinds(heard) + [own[0].kind];
    Grouped(Kinds(heard), [own[0].kind], Asking(own[1..]));
    assert taken + [] == taken;
  }

  lemma HeedsTaken(cfg: Config, i: nat, w: Worker, w': Worker, own: seq<Body>, heard: seq<(Kind, bool)>, taken: seq<(Kind, bool)>)
    requires cfg.procs >= 1 && Heeds(cfg, i, w, own, heard, taken)
    requires w.phase.Asked? && |w.toWorker| == 1 && w.toWorker[0].Decision?
    requires w' == w.(phase := Handling(w.phase.kind), toWorker := [], pending := w.phase.kind == Breakpoint && w.toWorker[0].attach)
    ensures Heeds(cfg, i, w', own, heard, taken + [(w.phase.kind, w.toWorker[0].attach)])
  {
    hide Requests, Handled, Script, Asking, Kinds;
    var more := taken + [(w.phase.kind, w.toWorker[0].attach)];
    assert more + OnItsWay(w') == more;
  }

  lemma HeedsRunning(cfg: Config, i: nat, w: Worker, w': Worker, own: seq<Body>, heard: seq<(Kind, bool)>, taken: seq<(Kind, bool)>)
    requires cfg.procs >= 1 && Heeds(cfg, i, w, own, heard, taken) && (w.phase.Handling? || w.phase == Running)
    requires (w'.phase == Running || w'.phase == Finished) && !w'.pending
    requires w'.todo == w.todo && w'.asks == w.asks && w'.armed == w.armed
    ensures Heeds(cfg, i, w', own, heard, taken)
  {
    hide Requests, Handled, Script, Asking, Kinds;
  }

  // ----- every step ---------------------------------------------------------------------------

  ghost predicate HeedsAt(cfg: Config, s: State, i: nat, heard: seq<(Kind, bool)>, taken: seq<(Kind, bool)>)
    requires cfg.procs >= 1
  {
    i < |s.ws| && Heeds(cfg, i, s.ws[i], Own(s.queue, i), heard, taken)
  }

  lemma QueueMore(s: State, i: nat, from: nat, b: Body)
    ensures Asking(Own(s.queue + [Message(from, b)], i)) == Asking(Own(s.queue, i)) + if from == i && b.Ask? then [b.kind] else []
  {
    hide Own, Asking;
    OwnPush(s.queue, Message(from, b), i);
    AskingMore(Own(s.queue, i), b);
    assert Own(s.queue, i) + [] == Own(s.queue, i);
  }

  lemma ActHeeds(cfg: Config, s: State, i: nat, slow: bool, s': State, heard: seq<(Kind, bool)>, taken: seq<(Kind, bool)>)
    requires ValidConfig(cfg) && Inv(cfg, s) && Next(cfg, s, Act(i, slow)) == Some(s') && i < cfg.procs
    requires HeedsAt(cfg, s, i, heard, taken)
    ensures HeedsAt(cfg, s', i, heard, taken)
  {
    hide Inv, Heeds, Own, Asking, Script;
    PipeIs(cfg, s, i);
    var w := s.ws[i];
    match w.todo[0] {
      case Put(p) => QueueMore(s, i, i, Item(p));
      case Break => QueueMore(s, i, i, Ask(Breakpoint, w.asks));
      case Raise => if w.armed { QueueMore(s, i, i, Ask(Exception, w.asks)); }
      case _ =>
    }
    assert Asking(Own(s.queue, i)) + [] == Asking(Own(s.queue, i));
    HeedsActed(cfg, i, w, s'.ws[i], Own(s.queue, i), Own(s'.queue, i), heard, taken);
  }

  /** A running worker has nothing in its pipe. */
  lemma PipeIs(cfg: Config, s: State, i: nat)
    requires cfg.procs >= 1 && Inv(cfg, s) && i < cfg.procs
    ensures i < |s.ws| && (s.ws[i].phase == Running ==> s.ws[i].toWorker == [])
    ensures s.ws[i].phase.Asked? && s.ws[i].toWorker != [] ==> |s.ws[i].toWorker| == 1
    ensures s.ws[i].phase == AwaitIndexes && s.ws[i].toWorker != [] ==> s.ws[i].toWorker == [Indexes(Assigned(cfg, i))]
    ensures s.ws[i].pending ==> s.ws[i].phase == Handling(Breakpoint)
  {
    hide Inv, Accounted, Covered, Core, Plain, EndsWith;
    GoodAt(cfg, s, i);
    InvBounds(cfg, s);
  }

  lemma OwnStepHeeds(cfg: Config, s: State, step: Step, s': State, i: nat, heard: seq<(Kind, bool)>, taken: seq<(Kind, bool)>)
    requires ValidConfig(cfg) && Inv(cfg, s) && Next(cfg, s, step) == Some(s') && i < cfg.procs
    requires step.SendCollected? || step.TakeIndexes? || step.TakeDecision? || step.SendAck? || step.FinishBreakpoint? || step.Finish?
    requires step.i == i && HeedsAt(cfg, s, i, heard, taken)
    ensures HeedsAt(cfg, s', i, heard, taken + TakenIn(s, step, i))
  {
    hide Inv, Heeds, Own, Asking, Script, Assigned;
    PipeIs(cfg, s, i);
    var w, w', own := s.ws[i], s'.ws[i], Own(s.queue, i);
    assert taken + [] == taken;
    match step
    case SendCollected(_) => HeedsBefore(cfg, i, w, w', own, heard, taken);
    case TakeIndexes(_) =>
      ScriptIs(cfg, i);
      HeedsBefore(cfg, i, w, w', own, heard, taken);
    case TakeDecision(_) => HeedsTaken(cfg, i, w, w', own, heard, taken);
    case SendAck(_) => HeedsRunning(cfg, i, w, w', own, heard, taken);
    case FinishBreakpoint(_) => if w.pending { HeedsRunning(cfg, i, w, w', own, heard, taken); }
    case Finish(_) =>
      HeedsRunning(cfg, i, w, w', own, heard, taken);
      QueueMore(s, i, i, Fin);
      assert Asking(own) + [] == Asking(own);
      HeedsAlike(cfg, i, w', w', own, Own(s'.queue, i), heard, taken);
  }

  /** The queue stays, or gets one more message. */
  predicate Sent(s: State, s': State, from: nat) {
    || s'.queue == s.queue
    || (|s'.queue| == |s.queue| + 1 && s.queue == s'.queue[..|s.queue|] && s'.queue[|s.queue|].from == from)
  }

  lemma QueueHeeds(s: State, s': State, i: nat, from: nat)
    requires Sent(s, s', from)
    requires from == i && s'.queue != s.queue ==> !s'.queue[|s.queue|].body.Ask?
    ensures Asking(Own(s'.queue, i)) == Asking(Own(s.queue, i))
  {
    hide Own, Asking;
    if s'.queue != s.queue {
      var m := s'.queue[|s.queue|];
      assert s'.queue == s.queue + [Message(m.from, m.body)];
      QueueMore(s, i, m.from, m.body);
      assert Asking(Own(s.queue, i)) + [] == Asking(Own(s.queue, i));
    }
  }

  lemma ExporterSends(cfg: Config, s: State, step: Step, s': State, i: nat)
    requires cfg.procs >= 1 && Next(cfg, s, step) == Some(s') && (step.StartLive? || step.Snapshot?) && i < |s.ws|
    ensures |s'.ws| == |s.ws| && Sent(s, s', step.i) && (s'.queue != s.queue ==> !s'.queue[|s.queue|].body.Ask?)
    ensures s'.ws[i] == s.ws[i].(exporter := s'.ws[i].exporter)
  {
  }

  lemma OthersSend(cfg: Config, s: State, step: Step, s': State)
    requires cfg.procs >= 1 && Next(cfg, s, step) == Some(s')
    requires !step.GatherOne? && !step.AssignOne? && !step.TakeAck? && !step.Get? && !step.StartLive? && !step.Snapshot?
    ensures Sent(s, s', step.i)
  {
    hide Assigned;
  }

  lemma ServerTakes(cfg: Config, s: State, step: Step, s': State, i: nat)
    requires cfg.procs >= 1 && Next(cfg, s, step) == Some(s') && (step.GatherOne? || step.TakeAck?) && i < |s.ws|
    ensures |s'.ws| == |s.ws| && s'.queue == s.queue && s'.ws[i] == s.ws[i].(toServer := s'.ws[i].toServer)
  {
  }

  lemma AssignHeeds(cfg: Config, s: State, s': State, i: nat, heard: seq<(Kind, bool)>, taken: seq<(Kind, bool)>)
    requires ValidConfig(cfg) && Inv(cfg, s) && Next(cfg, s, AssignOne) == Some(s') && i < cfg.procs
    requires HeedsAt(cfg, s, i, heard, taken)
    ensures HeedsAt(cfg, s', i, heard, taken)
  {
    hide Inv, Heeds, Own, Asking, Script, Assigned;
    if s.server.next == i {
      AssignedNow(cfg, s, i);
      HeedsBefore(cfg, i, s.ws[i], s'.ws[i], Own(s.queue, i), heard, taken);
    }
  }

  /** Steps of other workers, of the exporter, and of the server outside its loop. */
  lemma OtherStepHeeds(cfg: Config, s: State, step: Step, s': State, i: nat, heard: seq<(Kind, bool)>, taken: seq<(Kind, bool)>)
    requires ValidConfig(cfg) && Inv(cfg, s) && Next(cfg, s, step) == Some(s') && i < cfg.procs
    requires || step.StartLive? || step.Snapshot? || step.GatherOne? || step.TakeAck?
             || (!step.Get? && !step.AssignOne? && step.i != i)
    requires HeedsAt(cfg, s, i, heard, taken)
    ensures HeedsAt(cfg, s', i, heard, taken)
  {
    hide Inv, Next, Heeds, Own, Asking;
    if step.GatherOne? || step.TakeAck? {
      ServerTakes(cfg, s, step, s', i);
    } else if step.StartLive? || step.Snapshot? {
      ExporterSends(cfg, s, step, s', i);
      QueueHeeds(s, s', i, step.i);
    } else {
      OthersUntouched(cfg, s, step, s', i);
      OthersSend(cfg, s, step, s');
      QueueHeeds(s, s', i, step.i);
    }
    HeedsAlike(cfg, i, s.ws[i], s'.ws[i], Own(s.queue, i), Own(s'.queue, i), heard, taken);
  }

  /** A worker that is assigned its tests has not started. */
  lemma AssignedNow(cfg: Config, s: State, i: nat)
    requires cfg.procs >= 1 && Inv(cfg, s) && i < cfg.procs && s.server == Assign(i)
    ensures i < |s.ws| && (s.ws[i].phase.Collecting? || s.ws[i].phase.AwaitIndexes?)
  {
    hide Inv, Accounted, Covered, Core, Plain, EndsWith;
    GoodAt(cfg, s, i);
    InvBounds(cfg, s);
  }

  lemma GetHeeds(cfg: Config, s: State, attach: bool, s': State, i: nat, heard: seq<(Kind, bool)>, taken: seq<(Kind, bool)>)
    requires ValidConfig(cfg) && Inv(cfg, s) && Next(cfg, s, Get(attach)) == Some(s') && i < cfg.procs
    requires HeedsAt(cfg, s, i, heard, taken)
    ensures HeedsAt(cfg, s', i, heard + HeardIn(s, Get(attach), i), taken)
  {
    hide Inv, Heeds, Own, Asking, Script, Good;
    PopOthers(s.queue, i);
    var m, w, own := s.queue[0], s.ws[i], Own(s.queue, i);
    assert heard + [] == heard;
    if m.from == i {
      AskingFirst(own);
      assert [] + Asking(own[1..]) == Asking(own[1..]);
      if m.body.Ask? {
        GoodAt(cfg, s, i);
        ViewIs(s, i);
        GoodRequest(cfg, i, ViewOf(s, i), m.body.kind, m.body.id, attach);
        PipeEmpty(cfg, i, ViewOf(s, i));
        HeedsHeard(cfg, i, w, s'.ws[i], own, heard, taken, attach);
      } else {
        HeedsAlike(cfg, i, w, s'.ws[i], own, Own(s'.queue, i), heard, taken);
      }
    }
  }

  lemma PipeEmpty(cfg: Config, i: nat, v: View)
    requires cfg.procs >= 1 && Good(cfg, i, v) && v.stage == Served && v.w.phase.Asked?
    ensures v.w.toWorker == []
  {
    hide Accounted, Covered, Core, Plain, EndsWith;
  }

  lemma StepHeeds(cfg: Config, s: State, step: Step, s': State, i: nat, heard: seq<(Kind, bool)>, taken: seq<(Kind, bool)>)
    requires ValidConfig(cfg) && Inv(cfg, s) && Next(cfg, s, step) == Some(s') && i < cfg.procs
    requires HeedsAt(cfg, s, i, heard, taken)
    ensures HeedsAt(cfg, s', i, heard + HeardIn(s, step, i), taken + TakenIn(s, step, i))
  {
    hide Inv, Next, HeedsAt;
    assert heard + [] == heard && taken + [] == taken;
    match step
    case Get(attach) => GetHeeds(cfg, s, attach, s', i, heard, taken);
    case Act(j, slow) => if j == i { ActHeeds(cfg, s, i, slow, s', heard, taken); } else { OtherStepHeeds(cfg, s, step, s', i, heard, taken); }
    case StartLive(_, _) => OtherStepHeeds(cfg, s, step, s', i, heard, taken);
    case Snapshot(_, _) => OtherStepHeeds(cfg, s, step, s', i, heard, taken);
    case GatherOne => OtherStepHeeds(cfg, s, step, s', i, heard, taken);
    case AssignOne => AssignHeeds(cfg, s, s', i, heard, taken);
    case TakeAck => OtherStepHeeds(cfg, s, step, s', i, heard, taken);
    case _ =>
      if step.i == i { OwnStepHeeds(cfg, s, step, s', i, heard, taken); } else { OtherStepHeeds(cfg, s, step, s', i, heard, taken); }
  }

  lemma {:induction false} RunHeeds(cfg: Config, states: seq<State>, steps: seq<Step>, i: nat, k: nat)
    requires ValidConfig(cfg) && IsRun(cfg, states, steps) && k <= |steps| && i < cfg.procs
    ensures HeedsAt(cfg, states[k], i, Heard(states, steps, i, k), Taken(states, steps, i, k))
    decreases k
  {
    if k > 0 {
      hide Next, Inv, HeedsAt;
      RunHeeds(cfg, states, steps, i, k - 1);
      RunInv(cfg, states, steps, k - 1);
      StepHeeds(cfg, states[k - 1], steps[k - 1], states[k], i, Heard(states, steps, i, k - 1), Taken(states, steps, i, k - 1));
    }
  }

  // ----- the results --------------------------------------------------------------------------

  /** In every state of every run a worker that has its script has done some first part of it and has
      made exactly the requests this part calls for. */
  lemma RequestsMade(cfg: Config, states: seq<State>, steps: seq<Step>, i: nat, k: nat)
    requires ValidConfig(cfg) && IsRun(cfg, states, steps) && k <= |steps| && i < cfg.procs
    ensures i < |states[k].ws|
    ensures var w := states[k].ws[i];
            if w.phase.Collecting? || w.phase.AwaitIndexes? then w.asks == 0
            else
              var n := |Script(cfg, i)| - |w.todo|;
              0 <= n && w.todo == Script(cfg, i)[n..] && w.asks == |Requests(Script(cfg, i)[..n])|
  {
    hide Next, Requests, Handled, Script, Asking;
    RunHeeds(cfg, states, steps, i, k);
  }

  /** When every last message has been received, the server has heard from every worker exactly the
      requests its script calls for, in order and with their kinds, and the worker has taken exactly the
      decisions made on them. */
  lemma RequestsHeard(cfg: Config, states: seq<State>, steps: seq<Step>, i: nat)
    requires ValidConfig(cfg) && IsRun(cfg, states, steps) && Over(states[|steps|]) && i < cfg.procs
    ensures Kinds(Heard(states, steps, i, |steps|)) == Requests(Script(cfg, i))
    ensures Taken(states, steps, i, |steps|) == Heard(states, steps, i, |steps|)
  {
    hide Next, Requests, Handled, Script, Heard, Taken, Kinds;
    var s, k := states[|steps|], |steps|;
    RunHeeds(cfg, states, steps, i, k);
    RunInv(cfg, states, steps, k);
    FinishedAll(cfg, s, i);
    assert Script(cfg, i)[..|Script(cfg, i)|] == Script(cfg, i);
    var taken := Taken(states, steps, i, k);
    assert taken + [] == taken && Kinds(Heard(states, steps, i, k)) + [] == Kinds(Heard(states, steps, i, k));
  }

  lemma FinishedAll(cfg: Config, s: State, i: nat)
    requires cfg.procs >= 1 && Inv(cfg, s) && Over(s) && i < cfg.procs
    ensures i < |s.ws| && s.ws[i].phase == Finished && s.ws[i].todo == [] && Asking(Own(s.queue, i)) == []
  {
    hide Inv, Accounted, Covered, Plain, EndsWith;
    GoodAt(cfg, s, i);
    InvBounds(cfg, s);
    ViewIs(s, i);
    NoneAsking(Own(s.queue, i));
  }

  lemma {:induction false} NoneAsking(own: seq<Body>)
    requires Core(own) == []
    ensures Asking(own) == []
  {
    if own != [] { NoneAsking(own[..|own| - 1]); }
  }

  /** A request is settled by leaving the debugger if and only if the decision on it was to attach at a
      breakpoint; in every other case the worker acks by itself. */
  lemma AckedBy(cfg: Config, states: seq<State>, steps: seq<Step>, k: nat, i: nat, id: nat)
    requires ValidConfig(cfg) && IsRun(cfg, states, steps) && k < |steps| && i < cfg.procs
    requires SendsAck(states[k], states[k + 1], i, id)
    ensures if Attached(Taken(states, steps, i, k)) then steps[k] == FinishBreakpoint(i) else steps[k] == SendAck(i)
  {
    hide Next, Requests, Handled, Script, Heard, Taken, Kinds, Inv, Asking, Own;
    RunHeeds(cfg, states, steps, i, k);
    RunInv(cfg, states, steps, k);
    PipeIs(cfg, states[k], i);
    NextOf(cfg, states, steps, k);
    AckStepIs(cfg, states[k], steps[k], states[k + 1], i, id);
  }

  lemma NextOf(cfg: Config, states: seq<State>, steps: seq<Step>, k: nat)
    requires cfg.procs >= 1 && IsRun(cfg, states, steps) && k < |steps|
    ensures Next(cfg, states[k], steps[k]) == Some(states[k + 1])
  {
  }

  lemma AckStepIs(cfg: Config, s: State, step: Step, s': State, i: nat, id: nat)
    requires cfg.procs >= 1 && Next(cfg, s, step) == Some(s') && SendsAck(s, s', i, id)
    ensures || (step == SendAck(i) && s.ws[i].phase.Handling? && !s.ws[i].pending)
            || (step == FinishBreakpoint(i) && s.ws[i].pending)
  {
    hide DoGet, DoAction, Assigned;
    match step
    case Get(attach) => GetSendsNone(s, attach, s', i);
    case Act(j, slow) => ActSendsNone(cfg, s, j, slow, s', i);
    case _ => OthersSendNone(cfg, s, step, s', i);
  }

  lemma GetSendsNone(s: State, attach: bool, s': State, i: nat)
    requires s.queue != [] && i < |s.ws| && DoGet(s, attach) == Some(s')
    ensures |s'.ws| == |s.ws| && s'.ws[i].toServer == s.ws[i].toServer
  {
  }

  lemma ActSendsNone(cfg: Config, s: State, j: nat, slow: bool, s': State, i: nat)
    requires j < |s.ws| && s.ws[j].todo != [] && i < |s.ws| && DoAction(cfg, s, j, slow) == Some(s')
    ensures |s'.ws| == |s.ws| && s'.ws[i].toServer == s.ws[i].toServer
  {
    hide Room;
  }

  lemma OthersSendNone(cfg: Config, s: State, step: Step, s': State, i: nat)
    requires cfg.procs >= 1 && !step.Get? && !step.Act? && Next(cfg, s, step) == Some(s') && i < |s.ws| == |s'.ws|
    requires |s'.ws[i].toServer| == |s.ws[i].toServer| + 1 && s'.ws[i].toServer[|s.ws[i].toServer|].Ack?
    ensures || (step == SendAck(i) && s.ws[i].phase.Handling? && !s.ws[i].pending)
            || (step == FinishBreakpoint(i) && s.ws[i].pending)
  {
    hide Assigned, Room, DoGet, DoAction;
  }
}
