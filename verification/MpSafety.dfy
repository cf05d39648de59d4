/** What every reachable state of the runner satisfies, worker by worker. */
module MpSafety {
  import opened Wrappers
  import opened MpRunner

  // ----- one worker's view --------------------------------------------------------------------

  /** How far the server is with a worker. */
  datatype Stage = Uncollected | Unassigned | Served | Negotiated(id: nat)

  /** Everything in the state that concerns one worker: itself, its messages in the queue, how far
      the server is with it, whether it is still awaited, and what was received from it. */
  datatype View = View(w: Worker, own: seq<Body>, stage: Stage, live: bool, got: seq<int>, slot: Option<Cov>)

  function Own(queue: seq<Message>, i: nat): seq<Body> {
    if queue == [] then []
    else
      var n := |queue| - 1;
      Own(queue[..n], i) + if queue[n].from == i then [queue[n].body] else []
  }

  function From(reports: seq<(nat, int)>, i: nat): seq<int> {
    if reports == [] then []
    else
      var n := |reports| - 1;
      From(reports[..n], i) + if reports[n].0 == i then [reports[n].1] else []
  }

  function StageOf(server: Server, i: nat): Stage {
    match server
    case Gather(k) => if i < k then Unassigned else Uncollected
    case Assign(k) => if i < k then Served else Unassigned
    case Loop => Served
    case Negotiating(w, id) => if i == w then Negotiated(id) else Served
  }

  function ViewOf(s: State, i: nat): View
    requires i < |s.ws|
  {
    View(s.ws[i], Own(s.queue, i), StageOf(s.server, i), i in s.live, From(s.reports, i),
         if i in s.slots then Some(s.slots[i]) else None)
  }

  // ----- accounting ---------------------------------------------------------------------------

  /** Reports still to be put, and reports waiting in the queue. */
  function Due(todo: seq<Action>): seq<int> {
    if todo == [] then []
    else (if todo[0].Put? && todo[0].p.Report? then [todo[0].p.r] else []) + Due(todo[1..])
  }

  function Waiting(own: seq<Body>): seq<int> {
    if own == [] then []
    else
      var n := |own| - 1;
      Waiting(own[..n]) + if own[n].Item? && own[n].p.Report? then [own[n].p.r] else []
  }

  /** The last coverage report in a script, in the queue, or already received. */
  function LastTodo(todo: seq<Action>, before: Option<Cov>): Option<Cov> {
    if todo == [] then before
    else
      LastTodo(todo[1..],
               if todo[0].Put? && todo[0].p.Coverage? then Some(todo[0].p.c) else before)
  }

  function LastOwn(own: seq<Body>, before: Option<Cov>): Option<Cov> {
    if own == [] then before
    else
      var n := |own| - 1;
      if own[n].Item? && own[n].p.Coverage? then Some(own[n].p.c) else LastOwn(own[..n], before)
  }

  /** A final, blocking report is put after the exporter has been stopped. */
  predicate Proper(todo: seq<Action>) {
    exists k, m :: 0 <= k < m < |todo| && todo[k].StopLive? && todo[m].Put? && todo[m].p.Coverage?
  }

  predicate Conclusive(cfg: Config, i: nat)
    requires cfg.procs >= 1
  {
    cfg.exports(i) ==> Proper(Script(cfg, i))
  }

  // ----- the invariant ------------------------------------------------------------------------

  /** A worker's messages without coverage, which a thread of its own may slip in anywhere. */
  function Core(own: seq<Body>): seq<Body> {
    if own == [] then []
    else
      var n := |own| - 1;
      Core(own[..n]) + if own[n].Item? && own[n].p.Coverage? then [] else [own[n]]
  }

  predicate Plain(own: seq<Body>) {
    forall k :: 0 <= k < |own| ==> own[k].Item?
  }

  /** Plain messages and then one last one. */
  predicate EndsWith(own: seq<Body>, last: Body) {
    own != [] && own[|own| - 1] == last && Plain(own[..|own| - 1])
  }

  /** Before the worker runs: handshake and assignment. */
  predicate Before(cfg: Config, i: nat, v: View)
    requires cfg.procs >= 1
  {
    && Core(v.own) == [] && v.got == [] && v.live && v.w.asks == 0 && !v.w.pending && !v.w.slow
    && (v.w.exporter.Off? || (v.w.exporter.On? && cfg.exports(i)))
    && (v.w.exporter.Off? ==> v.own == [] && v.slot == None)
    && match v.w.phase
       case Collecting => v.w.exporter.Off? && v.stage == Uncollected && v.w.toServer == [] && v.w.toWorker == []
       case AwaitIndexes =>
         (match v.stage
          case Uncollected => v.w.toServer == [Collected] && v.w.toWorker == []
          case Unassigned => v.w.toServer == [] && v.w.toWorker == []
          case Served => v.w.toServer == [] && v.w.toWorker == [Indexes(Assigned(cfg, i))]
          case Negotiated(_) => false)
       case _ => false
  }

  /** What is in the pipes and at the end of the worker's messages while it runs. An open request is
      with exactly one party: in the queue, on its way back as a decision, with the worker, or on
      its way to the server as an ack. */
  predicate Talking(v: View) {
    var own := Core(v.own);
    && (v.stage.Served? || v.stage.Negotiated?)
    && (v.stage.Negotiated? ==> v.live && v.stage.id < v.w.asks)
    && (v.w.pending ==> v.w.phase == Handling(Breakpoint))
    && match v.w.phase
       case Running => Plain(own) && v.live && Idle(v, v.w.asks)
       case Asked(kind) =>
         && v.live && v.w.asks > 0
         && if v.stage.Negotiated? && v.stage.id == v.w.asks - 1
            then Plain(own) && v.w.toServer == [] && |v.w.toWorker| == 1 && v.w.toWorker[0].Decision?
            else EndsWith(own, Ask(kind, v.w.asks - 1)) && Idle(v, v.w.asks - 1)
       case Handling(kind) =>
         && v.live && v.w.asks > 0 && v.stage == Negotiated(v.w.asks - 1)
         && Plain(own) && v.w.toServer == [] && v.w.toWorker == []
       case Finished =>
         && v.w.todo == [] && Idle(v, v.w.asks)
         && if v.live then EndsWith(own, Fin) else own == [] && v.stage.Served?
       case _ => false
  }

  /** The worker owes nothing: the server is not waiting for it, or the ack of request `id - 1` is
      in the pipe. */
  predicate Idle(v: View, id: nat) {
    && v.w.toWorker == []
    && match v.stage
       case Negotiated(k) => k + 1 == id && |v.w.toServer| == 1 && v.w.toServer[0].Ack? && v.w.toServer[0].id == k
       case _ => v.w.toServer == []
  }

  /** No report is lost: received, waiting and due reports make up the script's, in order. */
  predicate Accounted(cfg: Config, i: nat, v: View)
    requires cfg.procs >= 1
  {
    v.got + Waiting(v.own) + Due(v.w.todo) == Due(Script(cfg, i))
  }

  /** No snapshot can come any more. */
  predicate Quiet(cfg: Config, i: nat, w: Worker) {
    !cfg.exports(i) || w.exporter.Stopped?
  }

  /** Coverage: as long as snapshots can come, the exporter's stop and the final report are still to
      do; from then on the last report received, waiting or due is the script's last; and nothing
      follows the worker's last message. */
  predicate Covered(cfg: Config, i: nat, v: View)
    requires cfg.procs >= 1
  {
    && (v.w.exporter.Off? <==> !cfg.exports(i))
    && (v.w.exporter.Late? ==> v.w.slow)
    && (Conclusive(cfg, i) && !v.w.slow ==>
          && (if Quiet(cfg, i, v.w)
              then LastTodo(v.w.todo, LastOwn(v.own, v.slot)) == LastTodo(Script(cfg, i), None)
              else Proper(v.w.todo) && LastTodo(v.w.todo, None) == LastTodo(Script(cfg, i), None))
          && (v.w.phase.Finished? ==> if v.live then v.own != [] && v.own[|v.own| - 1] == Fin else v.own == []))
  }

  predicate Good(cfg: Config, i: nat, v: View)
    requires cfg.procs >= 1
  {
    if v.w.phase.Collecting? || v.w.phase.AwaitIndexes? then Before(cfg, i, v)
    else Talking(v) && Accounted(cfg, i, v) && Covered(cfg, i, v)
  }

  /** Known senders, a queue within its capacity, counters in range. */
  predicate Bounds(cfg: Config, s: State) {
    && |s.ws| == cfg.procs && |s.queue| <= cfg.capacity
    && (forall k :: 0 <= k < |s.queue| ==> s.queue[k].from < cfg.procs)
    && (forall i :: i in s.live ==> i < cfg.procs)
    && (forall i :: i in s.slots ==> i < cfg.procs)
    && (match s.server
        case Gather(k) => k < cfg.procs
        case Assign(k) => k < cfg.procs
        case Loop => true
        case Negotiating(w, _) => w < cfg.procs)
  }

  predicate Inv(cfg: Config, s: State)
    requires cfg.procs >= 1
  {
    Bounds(cfg, s) && forall i :: 0 <= i < cfg.procs ==> Good(cfg, i, ViewOf(s, i))
  }
}
