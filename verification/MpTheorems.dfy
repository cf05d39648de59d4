/** What the runner guarantees over every run: no deadlock, an end, and nothing lost. */
module MpTheorems {
  import opened Wrappers
  import opened MpRunner
  import opened MpSafety
  import opened MpSteps

  // ----- the index lists ----------------------------------------------------------------------

  /** The lists of the first `k` workers, one after the other. */
  function AllAssigned(cfg: Config, k: nat): seq<nat>
    requires cfg.procs >= 1
  {
    if k == 0 then [] else AllAssigned(cfg, k - 1) + Assigned(cfg, k - 1)
  }

  lemma RangeJoin(a: nat, b: nat, c: nat)
    requires a <= b <= c
    ensures Range(a, b) + Range(b, c) == Range(a, c)
  {
  }

  lemma SharesFit(n: nat, p: nat, k: nat)
    requires p >= 1 && k <= p
    ensures k * (n / p) <= n
    ensures k > 0 ==> (k - 1) * (n / p) + n / p == k * (n / p)
  {
    var q := n / p;
    assert n == p * q + n % p;
    assert (p - k) * q >= 0;
    assert p * q == k * q + (p - k) * q;
  }

  lemma {:induction false} AssignedPrefix(cfg: Config, k: nat)
    requires cfg.procs >= 1 && cfg.uniform && k < cfg.procs
    ensures k * (cfg.tests / cfg.procs) <= cfg.tests
    ensures AllAssigned(cfg, k) == Range(0, k * (cfg.tests / cfg.procs))
  {
    var step := cfg.tests / cfg.procs;
    SharesFit(cfg.tests, cfg.procs, k);
    if k > 0 {
      AssignedPrefix(cfg, k - 1);
      hide Range;
      assert k * step == (k - 1 + 1) * step;
      RangeJoin(0, (k - 1) * step, k * step);
    }
  }

  /** Under uniform distribution the lists, in order, are exactly the tests 0 to n - 1, whatever the
      number of workers, and all but the last worker get equally many; under duplication every worker
      gets all of them. */
  lemma AssignmentCovers(cfg: Config, i: nat)
    requires cfg.procs >= 1 && i < cfg.procs
    ensures var all := if cfg.uniform then AllAssigned(cfg, cfg.procs) else Assigned(cfg, i);
            |all| == cfg.tests && forall j :: 0 <= j < cfg.tests ==> all[j] == j
    ensures cfg.uniform && i < cfg.procs - 1 ==> |Assigned(cfg, i)| == cfg.tests / cfg.procs
  {
    if cfg.uniform {
      UniformCovers(cfg);
      if i < cfg.procs - 1 { EqualShare(cfg, i); }
    } else {
      assert Assigned(cfg, i) == Range(0, cfg.tests);
    }
    hide Assigned, AllAssigned;
  }

  lemma UniformCovers(cfg: Config)
    requires cfg.procs >= 1 && cfg.uniform
    ensures AllAssigned(cfg, cfg.procs) == Range(0, cfg.tests)
  {
    var last := cfg.procs - 1;
    AssignedPrefix(cfg, last);
    SharesFit(cfg.tests, cfg.procs, last);
    RangeJoin(0, last * (cfg.tests / cfg.procs), cfg.tests);
  }

  lemma EqualShare(cfg: Config, i: nat)
    requires cfg.uniform && i + 1 < cfg.procs
    ensures |Assigned(cfg, i)| == cfg.tests / cfg.procs
  {
    var step := cfg.tests / cfg.procs;
    OneMore(i, step);
  }

  lemma OneMore(i: nat, step: nat)
    ensures (i + 1) * step == i * step + step
  {
  }

  // ----- no deadlock --------------------------------------------------------------------------

  lemma GoodAt(cfg: Config, s: State, i: nat)
    requires cfg.procs >= 1 && Inv(cfg, s) && i < cfg.procs
    ensures Good(cfg, i, ViewOf(s, i)) && ViewOf(s, i).w == s.ws[i] && ViewOf(s, i).stage == StageOf(s.server, i)
  {
  }

  /** Steps that may come at any time and any number of times: a snapshot of the exporter, and
      leaving a debugger that owes no ack. */
  predicate Idling(s: State, step: Step) {
    step.Snapshot? || (step.FinishBreakpoint? && (step.i < |s.ws| ==> !s.ws[step.i].pending))
  }

  /** A worker that has not finished can act when the queue is empty and the server is in its loop. */
  lemma WorkerProgress(cfg: Config, s: State, i: nat) returns (step: Step)
    requires ValidConfig(cfg) && Inv(cfg, s) && s.server == Loop && s.queue == [] && i in s.live
    ensures Next(cfg, s, step).Some? && !Idling(s, step)
  {
    hide Inv, Good, DoAction;
    InvBounds(cfg, s);
    GoodAt(cfg, s, i);
    assert ViewOf(s, i).own == [];
    ViewReady(cfg, i, ViewOf(s, i));
    if s.ws[i].phase.AwaitIndexes? {
      step := if cfg.exports(i) && s.ws[i].exporter.Off? then StartLive(i, map[]) else TakeIndexes(i);
    } else if s.ws[i].todo == [] {
      step := Finish(i);
    } else {
      CanAct(cfg, s, i);
      step := Act(i, false);
    }
  }

  lemma ViewReady(cfg: Config, i: nat, v: View)
    requires cfg.procs >= 1 && Good(cfg, i, v) && v.own == [] && v.stage == Served && v.live
    ensures v.w.phase.Running? || (v.w.phase.AwaitIndexes? && v.w.toWorker != [] && v.w.toWorker[0].Indexes?)
  {
    hide Accounted, Covered, Assigned;
  }

  lemma CanAct(cfg: Config, s: State, i: nat)
    requires i < |s.ws| && s.ws[i].todo != [] && Room(cfg, s)
    ensures DoAction(cfg, s, i, false).Some?
  {
  }

  /** While the server waits for an ack, either it is there or its worker can go on. */
  lemma NegotiationProgress(cfg: Config, s: State) returns (step: Step)
    requires ValidConfig(cfg) && Inv(cfg, s) && s.server.Negotiating?
    ensures Next(cfg, s, step).Some? && !Idling(s, step)
  {
    hide Inv, Good, ViewOf, DoGet, DoAction;
    InvBounds(cfg, s);
    var i := s.server.worker;
    GoodAt(cfg, s, i);
    ViewNegotiated(cfg, i, ViewOf(s, i));
    var w := s.ws[i];
    if w.toServer != [] {
      step := TakeAck;
    } else if w.phase.Asked? {
      step := TakeDecision(i);
    } else if w.pending {
      step := FinishBreakpoint(i);
    } else {
      step := SendAck(i);
    }
  }

  lemma ViewNegotiated(cfg: Config, i: nat, v: View)
    requires cfg.procs >= 1 && Good(cfg, i, v) && v.stage.Negotiated?
    ensures v.w.toServer != [] || (v.w.phase.Asked? && v.w.toWorker != [] && v.w.toWorker[0].Decision?) || (v.w.phase.Handling? && v.w.asks > 0)
  {
    hide Accounted, Covered, Core;
  }

  /** Until every worker's last message has been received, some process can take a step that brings
      the run on, full queue or not. */
  lemma NoDeadlock(cfg: Config, s: State) returns (step: Step)
    requires ValidConfig(cfg) && Inv(cfg, s) && !Over(s)
    ensures Next(cfg, s, step).Some? && !Idling(s, step)
  {
    hide Inv, Good, ViewOf, DoGet, DoAction;
    InvBounds(cfg, s);
    match s.server
    case Gather(i) =>
      GoodAt(cfg, s, i);
      ViewUncollected(cfg, i, ViewOf(s, i));
      step := if s.ws[i].toServer != [] then GatherOne else SendCollected(i);
    case Assign(i) => step := AssignOne;
    case Negotiating(_, _) => step := NegotiationProgress(cfg, s);
    case Loop =>
      if s.queue == [] {
        var i :| i in s.live;
        step := WorkerProgress(cfg, s, i);
      } else {
        GetPossible(cfg, s);
        step := Get(false);
      }
  }

  lemma ViewUncollected(cfg: Config, i: nat, v: View)
    requires cfg.procs >= 1 && Good(cfg, i, v) && v.stage == Uncollected
    ensures v.w.toServer != [] || v.w.phase == Collecting
  {
    hide Accounted, Covered, Core;
  }

  /** The server never looks up a worker it has let go. */
  lemma GetPossible(cfg: Config, s: State)
    requires ValidConfig(cfg) && Inv(cfg, s) && s.server == Loop && s.queue != [] && s.live != {}
    ensures DoGet(s, false).Some?
    ensures !s.queue[0].body.Item? ==> s.queue[0].from in s.live
  {
    hide Inv, Good, Own;
    InvBounds(cfg, s);
    var m := s.queue[0];
    GoodAt(cfg, s, m.from);
    PopOthers(s.queue, m.from);
    var v := ViewOf(s, m.from);
    match m.body
    case Item(_) =>
    case Ask(kind, id) => GoodRequest(cfg, m.from, v, kind, id, false);
    case Fin => GoodGone(cfg, m.from, v);
  }

  // ----- pipes --------------------------------------------------------------------------------

  /** Each pipe holds at most one message in all: requests, decisions and acks alternate. A worker
      that handles a request is the one the server waits for, and owes a breakpoint ack only then. */
  lemma PipesAlternate(cfg: Config, s: State, i: nat)
    requires ValidConfig(cfg) && Inv(cfg, s) && i < cfg.procs
    ensures |s.ws[i].toServer| + |s.ws[i].toWorker| <= 1
    ensures s.ws[i].phase.Handling? ==> s.ws[i].asks > 0 && s.server == Negotiating(i, s.ws[i].asks - 1)
    ensures s.ws[i].pending ==> s.ws[i].phase == Handling(Breakpoint)
  {
    hide Inv, Good, ViewOf;
    InvBounds(cfg, s);
    GoodAt(cfg, s, i);
    ViewAlternates(cfg, i, ViewOf(s, i));
  }

  lemma ViewAlternates(cfg: Config, i: nat, v: View)
    requires cfg.procs >= 1 && Good(cfg, i, v)
    ensures |v.w.toServer| + |v.w.toWorker| <= 1
    ensures v.w.phase.Handling? ==> v.w.asks > 0 && v.stage == Negotiated(v.w.asks - 1)
    ensures v.w.pending ==> v.w.phase == Handling(Breakpoint)
  {
    hide Accounted, Covered, Core, Assigned, EndsWith, Plain;
  }

  /** The message the server takes for the ack of a request is the ack of that request. */
  lemma AckMatchesRequest(cfg: Config, s: State, s': State)
    requires ValidConfig(cfg) && Inv(cfg, s) && Next(cfg, s, TakeAck) == Some(s')
    ensures s.ws[s.server.worker].toServer == [s.ws[s.server.worker].toServer[0]]
    ensures s.ws[s.server.worker].toServer[0].Ack? && s.ws[s.server.worker].toServer[0].id == s.server.id
  {
    ServerKeeps(cfg, s, TakeAck, s');
    PipesAlternate(cfg, s, s.server.worker);
  }

  /** Until the awaited worker acks, nothing leaves the queue: that worker must not itself wait for
      room in it. */
  lemma NoDrainBeforeAck(cfg: Config, s: State, step: Step, s': State)
    requires ValidConfig(cfg) && s.server.Negotiating? && s.server.worker < |s.ws| && s.ws[s.server.worker].toServer == []
    requires Next(cfg, s, step) == Some(s') && step != SendAck(s.server.worker) && step != FinishBreakpoint(s.server.worker)
    ensures s'.server == s.server && s.queue <= s'.queue
  {
  }

  // ----- every run ends -----------------------------------------------------------------------

  function Rest(cfg: Config, i: nat, w: Worker): nat
    requires cfg.procs >= 1
  {
    |w.toServer| + |w.toWorker| + (if cfg.exports(i) && w.exporter.Off? then 3 else 0) +
    match w.phase
    case Collecting => 10 * |Script(cfg, i)| + 5
    case AwaitIndexes => 10 * |Script(cfg, i)| + 3
    case Running => 10 * |w.todo| + 3
    case Asked(_) => 10 * |w.todo| + 7
    case Handling(_) => 10 * |w.todo| + 5
    case Finished => 0
  }

  function RestAll(cfg: Config, ws: seq<Worker>): nat
    requires cfg.procs >= 1
  {
    if ws == [] then 0 else RestAll(cfg, ws[..|ws| - 1]) + Rest(cfg, |ws| - 1, ws[|ws| - 1])
  }

  /** Work left: what the workers still do, messages in flight, index lists to hand out. */
  function Work(cfg: Config, s: State): nat
    requires cfg.procs >= 1
  {
    RestAll(cfg, s.ws) + 2 * |s.queue| +
    match s.server
    case Gather(_) => 2 * cfg.procs
    case Assign(k) => if k <= cfg.procs then 2 * (cfg.procs - k) else 0
    case _ => 0
  }

  lemma {:induction false} RestUpdate(cfg: Config, ws: seq<Worker>, i: nat, w: Worker)
    requires cfg.procs >= 1 && i < |ws|
    ensures RestAll(cfg, ws[i := w]) + Rest(cfg, i, ws[i]) == RestAll(cfg, ws) + Rest(cfg, i, w)
  {
    hide Rest;
    var n := |ws| - 1;
    if i < n {
      RestUpdate(cfg, ws[..n], i, w);
      assert ws[i := w][..n] == ws[..n][i := w];
    } else {
      assert ws[i := w][..n] == ws[..n];
    }
  }

  /** Every step that is not idle uses some of it up; an idle one adds at most one message. */
  lemma WorkShrinks(cfg: Config, s: State, step: Step, s': State)
    requires ValidConfig(cfg) && Inv(cfg, s) && Next(cfg, s, step) == Some(s')
    ensures if Idling(s, step) then Work(cfg, s') <= Work(cfg, s) + 2 else Work(cfg, s') < Work(cfg, s)
  {
    hide Next, Inv, Work;
    match step
    case Act(i, slow) => ActShrinks(cfg, s, i, slow, s');
    case TakeIndexes(i) => StartShrinks(cfg, s, i, s');
    case StartLive(_, _) => OfferShrinks(cfg, s, step, s');
    case Snapshot(_, _) => OfferShrinks(cfg, s, step, s');
    case GatherOne => ServerShrinks(cfg, s, step, s');
    case AssignOne => ServerShrinks(cfg, s, step, s');
    case TakeAck => ServerShrinks(cfg, s, step, s');
    case Get(_) => ServerShrinks(cfg, s, step, s');
    case _ => WorkerShrinks(cfg, s, step, s');
  }

  lemma ServerShrinks(cfg: Config, s: State, step: Step, s': State)
    requires ValidConfig(cfg) && Inv(cfg, s) && Next(cfg, s, step) == Some(s')
    requires step.GatherOne? || step.AssignOne? || step.TakeAck? || step.Get?
    ensures Work(cfg, s') < Work(cfg, s)
  {
    hide RestAll, Good, ViewOf, Assigned, DoAction, DoGet, Inv, Script;
    if step.Get? {
      GetShrinks(cfg, s, step.attach, s');
    } else {
      InvBounds(cfg, s);
      var i := if step.TakeAck? then s.server.worker else s.server.next;
      RestUpdate(cfg, s.ws, i, s'.ws[i]);
    }
  }

  lemma GetShrinks(cfg: Config, s: State, attach: bool, s': State)
    requires ValidConfig(cfg) && Next(cfg, s, Get(attach)) == Some(s')
    ensures Work(cfg, s') < Work(cfg, s)
  {
    hide RestAll, Assigned, DoAction, Script;
    if s.queue[0].body.Ask? { RestUpdate(cfg, s.ws, s.queue[0].from, s'.ws[s.queue[0].from]); }
  }

  lemma StartShrinks(cfg: Config, s: State, i: nat, s': State)
    requires ValidConfig(cfg) && Inv(cfg, s) && Next(cfg, s, TakeIndexes(i)) == Some(s')
    ensures Work(cfg, s') < Work(cfg, s)
  {
    hide RestAll, Good, ViewOf, Assigned, DoAction, Inv;
    InvBounds(cfg, s);
    GoodAt(cfg, s, i);
    GoodStarted(cfg, i, ViewOf(s, i));
    ScriptIs(cfg, i);
    RestUpdate(cfg, s.ws, i, s'.ws[i]);
  }

  lemma OfferShrinks(cfg: Config, s: State, step: Step, s': State)
    requires ValidConfig(cfg) && Next(cfg, s, step) == Some(s') && (step.StartLive? || step.Snapshot?)
    ensures if step.Snapshot? then Work(cfg, s') <= Work(cfg, s) + 2 else Work(cfg, s') < Work(cfg, s)
  {
    hide RestAll, Next;
    var i := step.i;
    OfferEffect(cfg, s, step, s');
    RestUpdate(cfg, s.ws, i, s'.ws[i]);
  }

  /** What the exporter changes: itself, and the queue by one message if there is room. */
  lemma OfferEffect(cfg: Config, s: State, step: Step, s': State)
    requires ValidConfig(cfg) && Next(cfg, s, step) == Some(s') && (step.StartLive? || step.Snapshot?)
    ensures step.i < |s.ws| && |s'.ws| == |s.ws| && s'.ws == s.ws[step.i := s'.ws[step.i]]
    ensures s'.server == s.server && s'.live == s.live && |s.queue| <= |s'.queue| <= |s.queue| + 1
    ensures s'.ws[step.i] == s.ws[step.i].(exporter := s'.ws[step.i].exporter)
    ensures step.StartLive? ==> cfg.exports(step.i) && s.ws[step.i].exporter.Off? && s'.ws[step.i].exporter.On? && s.ws[step.i].phase == AwaitIndexes
    ensures step.Snapshot? ==> !s.ws[step.i].exporter.Off? && !s'.ws[step.i].exporter.Off?
  {
    hide Assigned, DoAction, DoGet;
  }

  lemma WorkerShrinks(cfg: Config, s: State, step: Step, s': State)
    requires ValidConfig(cfg) && Inv(cfg, s) && Next(cfg, s, step) == Some(s')
    requires step.SendCollected? || step.TakeDecision? || step.SendAck? || step.FinishBreakpoint? || step.Finish?
    ensures if Idling(s, step) then s' == s else Work(cfg, s') < Work(cfg, s)
  {
    hide RestAll, Assigned, DoAction, Inv, Good, ViewOf;
    InvBounds(cfg, s);
    match step
    case SendCollected(i) => RestUpdate(cfg, s.ws, i, s'.ws[i]);
    case TakeDecision(i) => RestUpdate(cfg, s.ws, i, s'.ws[i]);
    case SendAck(i) => RestUpdate(cfg, s.ws, i, s'.ws[i]);
    case FinishBreakpoint(i) =>
      if s.ws[i].pending {
        GoodAt(cfg, s, i);
        PendingHandles(cfg, i, ViewOf(s, i));
        RestUpdate(cfg, s.ws, i, s'.ws[i]);
      }
    case Finish(i) => RestUpdate(cfg, s.ws, i, s'.ws[i]);
  }

  lemma InvBounds(cfg: Config, s: State)
    requires cfg.procs >= 1 && Inv(cfg, s)
    ensures Bounds(cfg, s)
  {
  }

  lemma ActShrinks(cfg: Config, s: State, i: nat, slow: bool, s': State)
    requires ValidConfig(cfg) && Inv(cfg, s) && Next(cfg, s, Act(i, slow)) == Some(s')
    ensures Work(cfg, s') < Work(cfg, s)
  {
    hide RestAll, Rest, Next, Inv;
    ActRest(cfg, s, i, slow, s');
    RestUpdate(cfg, s.ws, i, s'.ws[i]);
  }

  lemma ActRest(cfg: Config, s: State, i: nat, slow: bool, s': State)
    requires cfg.procs >= 1 && Next(cfg, s, Act(i, slow)) == Some(s')
    ensures i < |s.ws| == |s'.ws| && s'.ws == s.ws[i := s'.ws[i]] && s'.server == s.server
    ensures Rest(cfg, i, s'.ws[i]) + 2 * |s'.queue| < Rest(cfg, i, s.ws[i]) + 2 * |s.queue|
  {
    hide Script, Next;
    ActEffect(cfg, s, i, slow, s');
    assert |s.ws[i].todo[1..]| == |s.ws[i].todo| - 1;
  }

  lemma ActEffect(cfg: Config, s: State, i: nat, slow: bool, s': State)
    requires cfg.procs >= 1 && Next(cfg, s, Act(i, slow)) == Some(s')
    ensures i < |s.ws| == |s'.ws| && s'.ws == s.ws[i := s'.ws[i]] && s'.server == s.server && s.ws[i].todo != []
    ensures var w, w' := s.ws[i], s'.ws[i];
            && w.phase == Running && w'.todo == w.todo[1..] && w'.toServer == w.toServer && w'.toWorker == w.toWorker
            && (w'.exporter.Off? <==> w.exporter.Off?)
            && (w'.phase == Running || w'.phase.Asked?) && |s'.queue| <= |s.queue| + 1
  {
    hide Room;
    match s.ws[i].todo[0]
    case Put(_) => ActedAs(s, s', i, s.ws[i].(todo := s.ws[i].todo[1..]));
    case _ => ActedAs(s, s', i, s'.ws[i]);
  }

  lemma ActedAs(s: State, s': State, i: nat, w: Worker)
    requires i < |s.ws| && s'.ws == s.ws[i := w]
    ensures |s'.ws| == |s.ws| && s'.ws[i] == w && s'.ws == s.ws[i := s'.ws[i]]
  {
  }

  /** Idle steps among the first `k` of a run. */
  function IdleSteps(states: seq<State>, steps: seq<Step>, k: nat): nat
    requires k <= |steps| <= |states|
  {
    if k == 0 then 0 else IdleSteps(states, steps, k - 1) + if Idling(states[k - 1], steps[k - 1]) then 1 else 0
  }

  /** A run is no longer than the work there is at the start and what its idle steps add: without
      endless snapshots no run goes on for ever. */
  lemma {:induction false} RunsEnd(cfg: Config, states: seq<State>, steps: seq<Step>, k: nat)
    requires ValidConfig(cfg) && IsRun(cfg, states, steps) && k <= |steps|
    ensures k + Work(cfg, states[k]) <= Work(cfg, Init(cfg)) + 3 * IdleSteps(states, steps, k)
    decreases k
  {
    hide Next, Inv, Work, Idling;
    if k > 0 {
      RunsEnd(cfg, states, steps, k - 1);
      RunInv(cfg, states, steps, k - 1);
      WorkShrinks(cfg, states[k - 1], steps[k - 1], states[k]);
    }
  }

  // ----- exactly one ack per request ----------------------------------------------------------

  /** The step puts the ack of request `id` into worker `i`'s pipe. */
  predicate SendsAck(s: State, s': State, i: nat, id: nat) {
    && i < |s.ws| && i < |s'.ws| && |s'.ws[i].toServer| == |s.ws[i].toServer| + 1
    && s'.ws[i].toServer[|s.ws[i].toServer|].Ack? && s'.ws[i].toServer[|s.ws[i].toServer|].id == id
  }

  /** Acks of request `id` sent in the first `k` steps, by whichever step. */
  function AcksSent(states: seq<State>, i: nat, id: nat, k: nat): nat
    requires k < |states|
  {
    if k == 0 then 0 else AcksSent(states, i, id, k - 1) + if SendsAck(states[k - 1], states[k], i, id) then 1 else 0
  }

  /** Request `id` of a worker has been made and is no longer open. */
  predicate Settled(w: Worker, id: nat) {
    id < w.asks && !(id == w.asks - 1 && (w.phase.Asked? || w.phase.Handling?))
  }

  /** One more settled request, or one ack sent, or neither. */
  predicate Balanced(s: State, s': State, i: nat, id: nat)
    requires i < |s.ws| == |s'.ws|
  {
    (if Settled(s'.ws[i], id) then 1 else 0) == (if Settled(s.ws[i], id) then 1 else 0) + if SendsAck(s, s', i, id) then 1 else 0
  }

  lemma AckUntouched(s: State, s': State, i: nat, id: nat)
    requires i < |s.ws| == |s'.ws| && s'.ws[i] == s.ws[i]
    ensures Balanced(s, s', i, id)
  {
  }

  lemma AckAct(cfg: Config, s: State, i: nat, slow: bool, s': State, id: nat)
    requires cfg.procs >= 1 && Next(cfg, s, Act(i, slow)) == Some(s')
    ensures i < |s.ws| == |s'.ws| && Balanced(s, s', i, id)
  {
  }

  lemma AckServer(cfg: Config, s: State, step: Step, s': State, i: nat, id: nat)
    requires cfg.procs >= 1 && Next(cfg, s, step) == Some(s') && i < |s.ws|
    requires step.GatherOne? || step.AssignOne? || step.TakeAck? || step.Get?
    ensures |s.ws| == |s'.ws| && Balanced(s, s', i, id)
  {
    hide Assigned;
  }

  lemma AckWorker(cfg: Config, s: State, step: Step, s': State, id: nat)
    requires cfg.procs >= 1 && Inv(cfg, s) && Next(cfg, s, step) == Some(s')
    requires !step.GatherOne? && !step.AssignOne? && !step.TakeAck? && !step.Get? && !step.Act?
    ensures step.i < |s.ws| == |s'.ws| && Balanced(s, s', step.i, id)
  {
    hide Inv, Good, ViewOf, Script, DoAction, DoGet;
    InvBounds(cfg, s);
    if step.FinishBreakpoint? && s.ws[step.i].pending {
      GoodAt(cfg, s, step.i);
      PendingHandles(cfg, step.i, ViewOf(s, step.i));
    }
  }

  lemma OthersUntouched(cfg: Config, s: State, step: Step, s': State, i: nat)
    requires cfg.procs >= 1 && Next(cfg, s, step) == Some(s') && i < |s.ws|
    requires !step.GatherOne? && !step.AssignOne? && !step.TakeAck? && !step.Get? && step.i != i
    ensures |s.ws| == |s'.ws| && s'.ws[i] == s.ws[i]
  {
  }

  /** A step settles the request it acks, and no request is settled in any other way. */
  lemma AckStep(cfg: Config, s: State, step: Step, s': State, i: nat, id: nat)
    requires ValidConfig(cfg) && Inv(cfg, s) && Next(cfg, s, step) == Some(s') && i < cfg.procs
    ensures i < |s.ws| == |s'.ws| && Balanced(s, s', i, id)
  {
    hide Inv, Next, Balanced;
    InvBounds(cfg, s);
    if step.GatherOne? || step.AssignOne? || step.TakeAck? || step.Get? {
      AckServer(cfg, s, step, s', i, id);
    } else if step.i != i {
      OthersUntouched(cfg, s, step, s', i);
      AckUntouched(s, s', i, id);
    } else if step.Act? {
      AckAct(cfg, s, i, step.slow, s', id);
    } else {
      AckWorker(cfg, s, step, s', id);
    }
  }

  /** In any run, at any time, every request that is no longer open has been acked exactly once, and
      an open one not at all: accepted or declined, and however often and by whatever command the
      debugger is left. */
  lemma {:induction false} OneAckEach(cfg: Config, states: seq<State>, steps: seq<Step>, k: nat, i: nat, id: nat)
    requires ValidConfig(cfg) && IsRun(cfg, states, steps) && k <= |steps| && i < cfg.procs
    ensures i < |states[k].ws|
    ensures AcksSent(states, i, id, k) == if Settled(states[k].ws[i], id) then 1 else 0
    decreases k
  {
    hide Next, Inv, SendsAck;
    if k > 0 {
      OneAckEach(cfg, states, steps, k - 1, i, id);
      RunInv(cfg, states, steps, k - 1);
      AckStep(cfg, states[k - 1], steps[k - 1], states[k], i, id);
    }
  }

  // ----- the result ---------------------------------------------------------------------------

  /** What the server holds of worker `i`'s coverage. */
  function Held(s: State, i: nat): Option<Cov> {
    if i in s.slots then Some(s.slots[i]) else None
  }

  /** The server has everything worker `i` had to say. */
  ghost predicate Delivered(cfg: Config, s: State, i: nat)
    requires cfg.procs >= 1 && i < |s.ws|
  {
    && From(s.reports, i) == Due(Script(cfg, i))
    && (Conclusive(cfg, i) && !s.ws[i].slow ==> Held(s, i) == LastTodo(Script(cfg, i), None))
    && forall id: nat :: id < s.ws[i].asks ==> Settled(s.ws[i], id)
  }

  /** The coverage of worker `i` that a step from `s` takes off the queue. */
  function Received(s: State, step: Step, i: nat): Option<Cov> {
    if step.Get? && s.queue != [] && s.queue[0].from == i && s.queue[0].body.Item? && s.queue[0].body.p.Coverage?
    then Some(s.queue[0].body.p.c)
    else None
  }

  /** The last coverage of worker `i` among the first `k` steps. */
  function LastReceived(states: seq<State>, steps: seq<Step>, i: nat, k: nat): Option<Cov>
    requires k <= |steps| < |states|
  {
    if k == 0 then None
    else
      var c := Received(states[k - 1], steps[k - 1], i);
      if c.Some? then c else LastReceived(states, steps, i, k - 1)
  }

  /** At every moment the server holds the coverage it received last. */
  lemma {:induction false} LastIsHeld(cfg: Config, states: seq<State>, steps: seq<Step>, i: nat, k: nat)
    requires ValidConfig(cfg) && IsRun(cfg, states, steps) && k <= |steps|
    ensures Held(states[k], i) == LastReceived(states, steps, i, k)
  {
    if k > 0 {
      LastIsHeld(cfg, states, steps, i, k - 1);
      HeldStep(cfg, states[k - 1], steps[k - 1], states[k], i);
    }
  }

  lemma HeldStep(cfg: Config, s: State, step: Step, s': State, i: nat)
    requires ValidConfig(cfg) && Next(cfg, s, step) == Some(s')
    ensures var c := Received(s, step, i); Held(s', i) == if c.Some? then c else Held(s, i)
  {
  }

  /** A run that can only idle on has received every worker's last message. Then, under any
      interleaving of workers and exporters, each worker's reports have all been received, once and
      in its order; every request has been settled; and of its coverage the server holds what it
      received last, which is the final report, however many snapshots were sent or dropped and
      whenever, if its exporter ended in the time allowed. */
  lemma RunResult(cfg: Config, states: seq<State>, steps: seq<Step>)
    requires ValidConfig(cfg) && IsRun(cfg, states, steps)
    requires forall step :: Next(cfg, states[|steps|], step).Some? ==> Idling(states[|steps|], step)
    ensures var s := states[|steps|];
            Over(s) && |s.ws| == cfg.procs && forall i :: 0 <= i < cfg.procs ==> Delivered(cfg, s, i)
    ensures forall i :: 0 <= i < cfg.procs ==> Held(states[|steps|], i) == LastReceived(states, steps, i, |steps|)
  {
    hide Next, Good, Delivered, Idling, Held, LastReceived;
    var s := states[|steps|];
    RunInv(cfg, states, steps, |steps|);
    if !Over(s) {
      var step := NoDeadlock(cfg, s);
    }
    forall i | 0 <= i < cfg.procs ensures Delivered(cfg, s, i) && Held(s, i) == LastReceived(states, steps, i, |steps|) {
      AllReceived(cfg, s, i);
      LastIsHeld(cfg, states, steps, i, |steps|);
    }
  }

  lemma AllReceived(cfg: Config, s: State, i: nat)
    requires ValidConfig(cfg) && Inv(cfg, s) && Over(s) && i < cfg.procs
    ensures Delivered(cfg, s, i)
  {
    hide Proper;
    GoodAt(cfg, s, i);
    var v := ViewOf(s, i);
    assert v.w.phase == Finished && Core(v.own) == [] && v.w.todo == [];
    NoneWaiting(v.own);
    assert v.got + [] + [] == v.got;
    NotProper(v.w.todo);
  }

  lemma NotProper(todo: seq<Action>)
    requires todo == []
    ensures !Proper(todo)
  {
  }
}
