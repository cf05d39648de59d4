/** The multiprocess test runner: one server and some workers, joined by one bounded queue and a
    pipe for each worker. Any process that can take a step may take it next. */
module MpRunner {
  import opened Wrappers

  /** Line counts by file and line, as a worker reports them. */
  type Cov = map<string, map<int, nat>>

  datatype Payload = Report(r: int) | Coverage(c: Cov) | Other

  datatype Kind = Exception | Breakpoint

  /** What a worker's main thread does, in order: put a message, set up a test, have a test raise
      under `--attach`, hit a `breakpoint()`, stop the live exporter. */
  datatype Action =
    | Put(p: Payload)
    | StopLive
    | Setup
    | Raise
    | Break

  datatype Body = Item(p: Payload) | Ask(kind: Kind, id: nat) | Fin

  datatype Message = Message(from: nat, body: Body)

  /** Pipe traffic. Requests and acks are numbered here so that they can be told apart; the
      programs do not send the numbers. */
  datatype Up = Collected | Ack(kind: Kind, id: nat)

  datatype Down = Indexes(list: seq<nat>) | Decision(attach: bool)

  datatype Phase =
    | Collecting
    | AwaitIndexes
    | Running
    | Asked(kind: Kind)
    | Handling(kind: Kind)
    | Finished

  /** The thread that offers coverage snapshots: not started, running, told to stop but still busy
      with a last snapshot, or gone. */
  datatype Exporter = Off | On | Late | Stopped

  /** `armed`: no exception of this test has been negotiated yet. `pending`: an accepted breakpoint
      still owes its ack. `asks`: requests made so far. `slow`: the exporter did not end within the
      time allowed for joining it. */
  datatype Worker = Worker(phase: Phase, todo: seq<Action>, armed: bool, pending: bool, asks: nat,
                           exporter: Exporter, slow: bool, toServer: seq<Up>, toWorker: seq<Down>)

  datatype Server = Gather(next: nat) | Assign(next: nat) | Loop | Negotiating(worker: nat, id: nat)

  datatype State = State(ws: seq<Worker>, queue: seq<Message>, server: Server, live: set<nat>,
                         reports: seq<(nat, int)>, slots: map<nat, Cov>)

  /** Number of workers, tests collected, queue capacity, distribution, which workers export live
      coverage, and what worker `i` does for the tests it is assigned, up to and including its last
      coverage report. */
  datatype Config = Config(procs: nat, tests: nat, capacity: nat, uniform: bool, exports: nat -> bool,
                           script: (nat, seq<nat>) -> seq<Action>)

  predicate ValidConfig(cfg: Config) {
    cfg.procs >= 1 && cfg.capacity >= 1
  }

  // ----- assignment ---------------------------------------------------------------------------

  function Range(lo: nat, hi: nat): seq<nat> {
    if lo >= hi then [] else seq(hi - lo, (i: nat) => lo + i)
  }

  /** The index list of worker `i`. */
  function Assigned(cfg: Config, i: nat): seq<nat>
    requires cfg.procs >= 1
  {
    if !cfg.uniform then Range(0, cfg.tests)
    else
      var step := cfg.tests / cfg.procs;
      if i == cfg.procs - 1 then Range(i * step, cfg.tests) else Range(i * step, (i + 1) * step)
  }

  function Script(cfg: Config, i: nat): seq<Action>
    requires cfg.procs >= 1
  {
    cfg.script(i, Assigned(cfg, i))
  }

  // ----- steps --------------------------------------------------------------------------------

  function Upto(n: nat): (r: set<nat>)
    ensures forall i: nat :: i in r <==> i < n
  {
    if n == 0 then {} else Upto(n - 1) + {n - 1}
  }

  function Init(cfg: Config): State {
    State(seq(cfg.procs, _ => Worker(Collecting, [], true, false, 0, Off, false, [], [])), [], Gather(0),
          Upto(cfg.procs), [], map[])
  }

  /** `StartLive` and `Snapshot` carry the counts of that moment. `FinishBreakpoint` is what leaving
      the debugger runs, by any command, and what runs again when the process exits. */
  datatype Step =
    | SendCollected(i: nat)
    | StartLive(i: nat, c: Cov)
    | TakeIndexes(i: nat)
    | Act(i: nat, slow: bool)
    | Snapshot(i: nat, c: Cov)
    | TakeDecision(i: nat)
    | SendAck(i: nat)
    | FinishBreakpoint(i: nat)
    | Finish(i: nat)
    | GatherOne
    | AssignOne
    | Get(attach: bool)
    | TakeAck

  predicate Room(cfg: Config, s: State) {
    |s.queue| < cfg.capacity
  }

  function SetWorker(s: State, i: nat, w: Worker): State
    requires i < |s.ws|
  {
    s.(ws := s.ws[i := w])
  }

  function Push(s: State, i: nat, b: Body): State {
    s.(queue := s.queue + [Message(i, b)])
  }

  /** Snapshots do not wait for room: without it they are given up. */
  function Offer(cfg: Config, s: State, i: nat, c: Cov): State {
    if Room(cfg, s) then Push(s, i, Item(Coverage(c))) else s
  }

  /** The worker's next action. A blocking put waits for room. The exporter is joined, or given up
      on if it takes too long. */
  function DoAction(cfg: Config, s: State, i: nat, slow: bool): Option<State>
    requires i < |s.ws| && s.ws[i].todo != []
  {
    var w := s.ws[i];
    var w' := w.(todo := w.todo[1..]);
    match w.todo[0]
    case Put(p) => if Room(cfg, s) then Some(Push(SetWorker(s, i, w'), i, Item(p))) else None
    case StopLive =>
      Some(SetWorker(s, i, if !w.exporter.On? then w'
                           else if slow then w'.(exporter := Late, slow := true)
                           else w'.(exporter := Stopped)))
    case Setup => Some(SetWorker(s, i, w'.(armed := true)))
    case Raise =>
      if !w.armed then Some(SetWorker(s, i, w'))
      else if !Room(cfg, s) then None
      else Some(Push(SetWorker(s, i, w'.(armed := false, phase := Asked(Exception), asks := w.asks + 1)), i, Ask(Exception, w.asks)))
    case Break =>
      if !Room(cfg, s) then None
      else Some(Push(SetWorker(s, i, w'.(phase := Asked(Breakpoint), asks := w.asks + 1)), i, Ask(Breakpoint, w.asks)))
  }

  /** The server's turn in the event loop. For a request it decides, sends the decision and then
      waits for the ack; it looks the worker up among those still running. */
  function DoGet(s: State, attach: bool): Option<State>
    requires s.queue != []
  {
    var m, s' := s.queue[0], s.(queue := s.queue[1..]);
    match m.body
    case Item(p) =>
      Some(match p
           case Report(r) => s'.(reports := s.reports + [(m.from, r)])
           case Coverage(c) => s'.(slots := s.slots[m.from := c])
           case Other => s')
    case Ask(kind, id) =>
      if m.from !in s.live || m.from >= |s.ws| then None
      else
        var w := s.ws[m.from];
        Some(SetWorker(s', m.from, w.(toWorker := w.toWorker + [Decision(attach)])).(server := Negotiating(m.from, id)))
    case Fin => if m.from in s.live then Some(s'.(live := s.live - {m.from})) else None
  }

  /** The state after a step, if the step can be taken. */
  function Next(cfg: Config, s: State, step: Step): Option<State>
    requires cfg.procs >= 1
  {
    match step
    case SendCollected(i) =>
      if i < |s.ws| && s.ws[i].phase == Collecting
      then Some(SetWorker(s, i, s.ws[i].(phase := AwaitIndexes, toServer := s.ws[i].toServer + [Collected])))
      else None
    case StartLive(i, c) =>
      if i < |s.ws| && s.ws[i].phase == AwaitIndexes && cfg.exports(i) && s.ws[i].exporter.Off?
      then Some(Offer(cfg, SetWorker(s, i, s.ws[i].(exporter := On)), i, c))
      else None
    case TakeIndexes(i) =>
      if i < |s.ws| && s.ws[i].phase == AwaitIndexes && s.ws[i].toWorker != [] && s.ws[i].toWorker[0].Indexes?
         && (cfg.exports(i) ==> !s.ws[i].exporter.Off?)
      then Some(SetWorker(s, i, s.ws[i].(phase := Running, toWorker := s.ws[i].toWorker[1..],
                                         todo := cfg.script(i, s.ws[i].toWorker[0].list))))
      else None
    case Act(i, slow) =>
      if i < |s.ws| && s.ws[i].phase == Running && s.ws[i].todo != [] then DoAction(cfg, s, i, slow) else None
    case Snapshot(i, c) =>
      if i < |s.ws| && (s.ws[i].exporter.On? || s.ws[i].exporter.Late?)
      then Some(Offer(cfg, SetWorker(s, i, if s.ws[i].exporter.Late? then s.ws[i].(exporter := Stopped) else s.ws[i]), i, c))
      else None
    case TakeDecision(i) =>
      if i < |s.ws| && s.ws[i].phase.Asked? && s.ws[i].toWorker != [] && s.ws[i].toWorker[0].Decision?
      then
        var kind := s.ws[i].phase.kind;
        Some(SetWorker(s, i, s.ws[i].(phase := Handling(kind), toWorker := s.ws[i].toWorker[1..],
                                      pending := kind == Breakpoint && s.ws[i].toWorker[0].attach)))
      else None
    case SendAck(i) =>
      if i < |s.ws| && s.ws[i].phase.Handling? && !s.ws[i].pending && s.ws[i].asks > 0
      then Some(SetWorker(s, i, s.ws[i].(phase := Running, toServer := s.ws[i].toServer + [Ack(s.ws[i].phase.kind, s.ws[i].asks - 1)])))
      else None
    case FinishBreakpoint(i) =>
      if i >= |s.ws| || (s.ws[i].pending && s.ws[i].asks == 0) then None
      else if !s.ws[i].pending then Some(s)
      else Some(SetWorker(s, i, s.ws[i].(phase := Running, pending := false,
                                         toServer := s.ws[i].toServer + [Ack(Breakpoint, s.ws[i].asks - 1)])))
    case Finish(i) =>
      if i < |s.ws| && s.ws[i].phase == Running && s.ws[i].todo == [] && Room(cfg, s)
      then Some(Push(SetWorker(s, i, s.ws[i].(phase := Finished)), i, Fin))
      else None
    case GatherOne =>
      if s.server.Gather? && s.server.next < |s.ws| && s.ws[s.server.next].toServer != []
      then
        var i := s.server.next;
        Some(SetWorker(s, i, s.ws[i].(toServer := s.ws[i].toServer[1..]))
             .(server := if i + 1 == cfg.procs then Assign(0) else Gather(i + 1)))
      else None
    case AssignOne =>
      if s.server.Assign? && s.server.next < |s.ws|
      then
        var i := s.server.next;
        Some(SetWorker(s, i, s.ws[i].(toWorker := s.ws[i].toWorker + [Indexes(Assigned(cfg, i))]))
             .(server := if i + 1 == cfg.procs then Loop else Assign(i + 1)))
      else None
    case Get(attach) => if s.server == Loop && s.live != {} && s.queue != [] then DoGet(s, attach) else None
    case TakeAck =>
      if s.server.Negotiating? && s.server.worker < |s.ws| && s.ws[s.server.worker].toServer != []
      then
        var i := s.server.worker;
        Some(SetWorker(s, i, s.ws[i].(toServer := s.ws[i].toServer[1..])).(server := Loop))
      else None
  }

  /** States of a run: each follows from the one before by some step. */
  predicate IsRun(cfg: Config, states: seq<State>, steps: seq<Step>)
    requires cfg.procs >= 1
  {
    && |states| == |steps| + 1 && states[0] == Init(cfg)
    && forall k :: 0 <= k < |steps| ==> Next(cfg, states[k], steps[k]) == Some(states[k + 1])
  }

  /** The server has received every worker's last message. */
  predicate Over(s: State) {
    s.server == Loop && s.live == {}
  }
}
