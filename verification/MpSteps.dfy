/** Each step keeps the invariant: what it does to the one worker concerned, and that it leaves the
    others' views alone. */
module MpSteps {
  import opened Wrappers
  import opened MpRunner
  import opened MpSafety

  // ----- queues and lists ---------------------------------------------------------------------

  lemma OwnPush(queue: seq<Message>, m: Message, j: nat)
    ensures Own(queue + [m], j) == Own(queue, j) + if m.from == j then [m.body] else []
  {
    assert (queue + [m])[..|queue|] == queue;
  }

  lemma {:induction false} OwnPop(queue: seq<Message>, j: nat)
    requires queue != []
    ensures Own(queue, j) == (if queue[0].from == j then [queue[0].body] else []) + Own(queue[1..], j)
  {
    var n := |queue| - 1;
    if n == 0 {
      assert queue[..0] == [] && queue[1..] == [];
    } else {
      OwnPop(queue[..n], j);
      assert queue[..n][1..] == queue[1..][..n - 1];
    }
  }

  lemma FromPush(reports: seq<(nat, int)>, x: (nat, int), j: nat)
    ensures From(reports + [x], j) == From(reports, j) + if x.0 == j then [x.1] else []
  {
    assert (reports + [x])[..|reports|] == reports;
  }

  lemma {:induction false} WaitingCons(b: Body, own: seq<Body>)
    ensures Waiting([b] + own) == (if b.Item? && b.p.Report? then [b.p.r] else []) + Waiting(own)
  {
    var all, n := [b] + own, |own|;
    if n == 0 {
      assert all == [b] && [b][..0] == [];
    } else {
      WaitingCons(b, own[..n - 1]);
      assert all[..n] == [b] + own[..n - 1];
    }
  }

  lemma WaitingSnoc(own: seq<Body>, b: Body)
    ensures Waiting(own + [b]) == Waiting(own) + if b.Item? && b.p.Report? then [b.p.r] else []
  {
    assert (own + [b])[..|own|] == own;
  }

  lemma {:induction false} LastOwnCons(b: Body, own: seq<Body>, before: Option<Cov>)
    ensures LastOwn([b] + own, before) == LastOwn(own, if b.Item? && b.p.Coverage? then Some(b.p.c) else before)
  {
    var all, n := [b] + own, |own|;
    if n == 0 {
      assert all == [b] && [b][..0] == [];
    } else {
      LastOwnCons(b, own[..n - 1], before);
      assert all[..n] == [b] + own[..n - 1] && all[n] == own[n - 1];
    }
  }

  lemma LastOwnSnoc(own: seq<Body>, b: Body, before: Option<Cov>)
    ensures LastOwn(own + [b], before) == if b.Item? && b.p.Coverage? then Some(b.p.c) else LastOwn(own, before)
  {
    assert (own + [b])[..|own|] == own;
  }

  /** What went before does not matter when a blocking report is still to come. */
  lemma {:induction false} LastTodoLater(todo: seq<Action>, a: Option<Cov>, b: Option<Cov>)
    requires exists k :: 0 <= k < |todo| && todo[k].Put? && todo[k].p.Coverage?
    ensures LastTodo(todo, a) == LastTodo(todo, b)
  {
    if !(todo[0].Put? && todo[0].p.Coverage?) {
      var k :| 0 <= k < |todo| && todo[k].Put? && todo[k].p.Coverage?;
      assert todo[1..][k - 1] == todo[k];
      LastTodoLater(todo[1..], a, b);
    }
  }

  predicate IsCoverage(b: Body) {
    b.Item? && b.p.Coverage?
  }

  lemma CoreSnoc(own: seq<Body>, b: Body)
    ensures Core(own + [b]) == Core(own) + if IsCoverage(b) then [] else [b]
  {
    assert (own + [b])[..|own|] == own;
  }

  lemma {:induction false} CoreCons(b: Body, own: seq<Body>)
    ensures Core([b] + own) == (if IsCoverage(b) then [] else [b]) + Core(own)
  {
    var all, n := [b] + own, |own|;
    if n == 0 {
      assert all == [b] && [b][..0] == [];
    } else {
      CoreCons(b, own[..n - 1]);
      assert all[..n] == [b] + own[..n - 1];
    }
  }

  lemma CorePop(own: seq<Body>)
    requires own != []
    ensures IsCoverage(own[0]) ==> Core(own[1..]) == Core(own)
    ensures !IsCoverage(own[0]) ==> Core(own) != [] && Core(own)[0] == own[0] && Core(own[1..]) == Core(own)[1..]
  {
    assert own == [own[0]] + own[1..];
    CoreCons(own[0], own[1..]);
  }

  lemma PlainSnoc(own: seq<Body>, p: Payload)
    requires Plain(own)
    ensures Plain(own + [Item(p)])
  {
  }

  lemma EndsSnoc(own: seq<Body>, b: Body)
    requires Plain(own)
    ensures EndsWith(own + [b], b)
  {
    assert (own + [b])[..|own|] == own;
  }

  // ----- coverage -----------------------------------------------------------------------------

  function Acted(v: View): View
    requires v.w.todo != []
  {
    v.(w := v.w.(todo := v.w.todo[1..]))
  }

  /** A stop and a report still to come stay so when something else is done. */
  lemma ProperRest(todo: seq<Action>)
    requires todo != [] && Proper(todo)
    ensures !todo[0].StopLive? ==> Proper(todo[1..])
    ensures exists k :: 0 <= k < |todo[1..]| && todo[1..][k].Put? && todo[1..][k].p.Coverage?
  {
    var k, m :| 0 <= k < m < |todo| && todo[k].StopLive? && todo[m].Put? && todo[m].p.Coverage?;
    assert todo[1..][m - 1] == todo[m];
    if !todo[0].StopLive? { assert todo[1..][k - 1] == todo[k]; }
  }

  /** An action other than stopping a running exporter. */
  lemma CoveredActed(cfg: Config, i: nat, v: View, own: seq<Body>, w: Worker)
    requires cfg.procs >= 1 && v.w.todo != [] && Covered(cfg, i, v) && !v.w.phase.Finished? && !w.phase.Finished?
    requires w.todo == v.w.todo[1..] && w.exporter == v.w.exporter && w.slow == v.w.slow
    requires v.w.todo[0].StopLive? ==> !v.w.exporter.On?
    requires own == v.own || exists b :: own == v.own + [b] && (IsCoverage(b) ==> v.w.todo[0] == Put(b.p))
    requires v.w.todo[0].Put? ==> own == v.own + [Item(v.w.todo[0].p)]
    ensures Covered(cfg, i, v.(own := own, w := w))
  {
    if Conclusive(cfg, i) && !v.w.slow {
      if own != v.own {
        var b :| own == v.own + [b] && (IsCoverage(b) ==> v.w.todo[0] == Put(b.p));
        LastOwnSnoc(v.own, b, v.slot);
        if v.w.todo[0].Put? { assert own[|v.own|] == Item(v.w.todo[0].p) == b; }
      }
      if !Quiet(cfg, i, v.w) {
        ProperRest(v.w.todo);
        var x := if v.w.todo[0].Put? && v.w.todo[0].p.Coverage? then Some(v.w.todo[0].p.c) else None;
        LastTodoLater(v.w.todo[1..], x, None);
      }
    }
  }

  lemma CoveredStopped(cfg: Config, i: nat, v: View, slow: bool)
    requires cfg.procs >= 1 && v.w.todo != [] && Covered(cfg, i, v) && v.w.phase.Running?
    requires v.w.todo[0].StopLive? && v.w.exporter.On?
    ensures var w := Acted(v).w; Covered(cfg, i, v.(w := if slow then w.(exporter := Late, slow := true) else w.(exporter := Stopped)))
  {
    if Conclusive(cfg, i) && !v.w.slow {
      ProperRest(v.w.todo);
      LastTodoLater(v.w.todo[1..], None, LastOwn(v.own, v.slot));
    }
  }

  /** A snapshot comes only while coverage is not settled. */
  lemma CoveredSnapshot(cfg: Config, i: nat, v: View, own: seq<Body>)
    requires cfg.procs >= 1 && Covered(cfg, i, v) && (v.w.exporter.On? || v.w.exporter.Late?)
    requires v.w.phase.Finished? ==> v.w.todo == []
    ensures Covered(cfg, i, v.(own := own, w := if v.w.exporter.Late? then v.w.(exporter := Stopped) else v.w))
  {
  }

  lemma CoveredFinished(cfg: Config, i: nat, v: View)
    requires cfg.procs >= 1 && Covered(cfg, i, v) && v.live && !v.w.phase.Finished?
    ensures Covered(cfg, i, v.(w := v.w.(phase := Finished), own := v.own + [Fin]))
  {
    LastOwnSnoc(v.own, Fin, v.slot);
  }

  /** Only phase, pipes and flags of the talk change. */
  lemma CoveredSame(cfg: Config, i: nat, v: View, w: Worker, stage: Stage)
    requires cfg.procs >= 1 && Covered(cfg, i, v) && (w.phase.Finished? <==> v.w.phase.Finished?)
    requires w.todo == v.w.todo && w.exporter == v.w.exporter && w.slow == v.w.slow
    ensures Covered(cfg, i, v.(w := w, stage := stage))
  {
    hide LastTodo, LastOwn, Proper, Script, Conclusive;
  }

  /** The first of the worker's messages is received. */
  lemma CoveredPopped(cfg: Config, i: nat, v: View, live: bool)
    requires cfg.procs >= 1 && v.own != [] && Covered(cfg, i, v)
    requires v.w.phase.Finished? ==> (live == v.live && v.own[0] != Fin) || (v.own[0] == Fin && v.live && !live && EndsWith(Core(v.own), Fin))
    ensures Covered(cfg, i, v.(own := v.own[1..], live := live, slot := if IsCoverage(v.own[0]) then Some(v.own[0].p.c) else v.slot))
  {
    var rest := v.own[1..];
    assert v.own == [v.own[0]] + rest;
    LastOwnCons(v.own[0], rest, v.slot);
    if v.w.phase.Finished? && v.own[0] == Fin { OneFin(v.own); }
  }

  /** A last message that is also the first is the only one. */
  lemma OneFin(own: seq<Body>)
    requires own != [] && own[0] == Fin && EndsWith(Core(own), Fin)
    ensures own[|own| - 1] == Fin ==> |own| == 1
  {
    hide Core;
    CorePop(own);
    HeadOfFront(Core(own));
    LastInCore(own[1..]);
  }

  lemma LastInCore(own: seq<Body>)
    ensures own != [] && !IsCoverage(own[|own| - 1]) ==> Core(own) != []
  {
  }

  // ----- what a step does to its worker's view ------------------------------------------------

  predicate Can(cfg: Config, i: nat, v: View)
    requires cfg.procs >= 1
  {
    Good(cfg, i, v) && v.w.phase == Running && v.w.todo != []
  }

  lemma AccountedSent(cfg: Config, i: nat, v: View, p: Payload)
    requires cfg.procs >= 1 && v.w.todo != [] && Accounted(cfg, i, v) && v.w.todo[0] == Put(p)
    ensures Accounted(cfg, i, Acted(v).(own := v.own + [Item(p)]))
  {
    WaitingSnoc(v.own, Item(p));
    assert v.got + (Waiting(v.own) + (if p.Report? then [p.r] else [])) + Due(v.w.todo[1..])
           == v.got + Waiting(v.own) + ((if p.Report? then [p.r] else []) + Due(v.w.todo[1..]));
  }

  lemma GoodSent(cfg: Config, i: nat, v: View, p: Payload)
    requires cfg.procs >= 1 && Can(cfg, i, v) && v.w.todo[0] == Put(p)
    ensures Good(cfg, i, Acted(v).(own := v.own + [Item(p)]))
  {
    hide Accounted, Covered, Core;
    AccountedSent(cfg, i, v, p);
    CoveredActed(cfg, i, v, v.own + [Item(p)], Acted(v).w);
    CoreSnoc(v.own, Item(p));
    PlainSnoc(Core(v.own), p);
    assert Core(v.own) + [] == Core(v.own);
  }

  /** Messages that are not reports leave the accounts alone. */
  lemma AccountedMore(cfg: Config, i: nat, v: View, b: Body, w: Worker)
    requires cfg.procs >= 1 && Accounted(cfg, i, v) && !(b.Item? && b.p.Report?) && Due(w.todo) == Due(v.w.todo)
    ensures Accounted(cfg, i, v.(own := v.own + [b], w := w)) && Accounted(cfg, i, v.(w := w))
  {
    WaitingSnoc(v.own, b);
    assert Waiting(v.own) + [] == Waiting(v.own);
  }

  lemma DueSilent(todo: seq<Action>)
    requires todo != [] && !todo[0].Put?
    ensures Due(todo[1..]) == Due(todo)
  {
    assert [] + Due(todo[1..]) == Due(todo[1..]);
  }

  /** Actions that send nothing: a setup, an exception already negotiated, a stop without exporter. */
  lemma GoodSilent(cfg: Config, i: nat, v: View, armed: bool)
    requires cfg.procs >= 1 && Can(cfg, i, v) && !v.w.todo[0].Put? && (v.w.todo[0].StopLive? ==> !v.w.exporter.On?)
    ensures Good(cfg, i, Acted(v).(w := Acted(v).w.(armed := armed)))
  {
    hide Accounted, Covered, Core;
    var w := Acted(v).w.(armed := armed);
    DueSilent(v.w.todo);
    AccountedMore(cfg, i, v, Fin, w);
    CoveredActed(cfg, i, v, v.own, w);
  }

  lemma GoodStopped(cfg: Config, i: nat, v: View, slow: bool)
    requires cfg.procs >= 1 && Can(cfg, i, v) && v.w.todo[0].StopLive? && v.w.exporter.On?
    ensures var w := Acted(v).w; Good(cfg, i, v.(w := if slow then w.(exporter := Late, slow := true) else w.(exporter := Stopped)))
  {
    hide Accounted, Covered, Core;
    var w := Acted(v).w;
    DueSilent(v.w.todo);
    AccountedMore(cfg, i, v, Fin, if slow then w.(exporter := Late, slow := true) else w.(exporter := Stopped));
    CoveredStopped(cfg, i, v, slow);
  }

  lemma GoodAsked(cfg: Config, i: nat, v: View, kind: Kind, armed: bool)
    requires cfg.procs >= 1 && Can(cfg, i, v) && !v.w.todo[0].Put? && !v.w.todo[0].StopLive?
    ensures var w := Acted(v).w.(armed := armed, phase := Asked(kind), asks := v.w.asks + 1);
            Good(cfg, i, v.(w := w, own := v.own + [Ask(kind, v.w.asks)]))
  {
    hide Accounted, Covered, Core, Plain, EndsWith;
    var w, b := Acted(v).w.(armed := armed, phase := Asked(kind), asks := v.w.asks + 1), Ask(kind, v.w.asks);
    DueSilent(v.w.todo);
    AccountedMore(cfg, i, v, b, w);
    CoveredActed(cfg, i, v, v.own + [b], w);
    CoreSnoc(v.own, b);
    EndsSnoc(Core(v.own), b);
  }

  lemma GoodFinished(cfg: Config, i: nat, v: View)
    requires cfg.procs >= 1 && Good(cfg, i, v) && v.w.phase == Running && v.w.todo == []
    ensures Good(cfg, i, v.(w := v.w.(phase := Finished), own := v.own + [Fin]))
  {
    hide Accounted, Covered, Core, Plain, EndsWith;
    AccountedMore(cfg, i, v, Fin, v.w.(phase := Finished));
    CoveredFinished(cfg, i, v);
    CoreSnoc(v.own, Fin);
    EndsSnoc(Core(v.own), Fin);
  }

  /** A snapshot changes nothing but coverage, whatever the worker is doing, whether it finds room or
      not. */
  lemma GoodSnapshot(cfg: Config, i: nat, v: View, c: Cov, room: bool)
    requires cfg.procs >= 1 && Good(cfg, i, v) && (v.w.exporter.On? || v.w.exporter.Late?)
    ensures Good(cfg, i, v.(own := if room then v.own + [Item(Coverage(c))] else v.own,
                            w := if v.w.exporter.Late? then v.w.(exporter := Stopped) else v.w))
  {
    hide Accounted, Covered, Core;
    var b, w := Item(Coverage(c)), if v.w.exporter.Late? then v.w.(exporter := Stopped) else v.w;
    CoreSnoc(v.own, b);
    assert Core(v.own) + [] == Core(v.own);
    if !v.w.phase.Collecting? && !v.w.phase.AwaitIndexes? {
      AccountedMore(cfg, i, v, b, w);
      CoveredSnapshot(cfg, i, v, if room then v.own + [b] else v.own);
    }
  }

  lemma GoodExporting(cfg: Config, i: nat, v: View, c: Cov, room: bool)
    requires cfg.procs >= 1 && Good(cfg, i, v) && v.w.phase == AwaitIndexes && v.w.exporter.Off? && cfg.exports(i)
    ensures Good(cfg, i, v.(own := if room then v.own + [Item(Coverage(c))] else v.own, w := v.w.(exporter := On)))
  {
    hide Assigned;
    CoreSnoc(v.own, Item(Coverage(c)));
  }

  /** A decision reaches a worker only while the server waits for the ack of that request. */
  lemma GoodDecided(cfg: Config, i: nat, v: View, pending: bool)
    requires cfg.procs >= 1 && Good(cfg, i, v) && v.w.phase.Asked? && v.w.toWorker != []
    requires pending ==> v.w.phase.kind == Breakpoint
    ensures Good(cfg, i, v.(w := v.w.(phase := Handling(v.w.phase.kind), toWorker := v.w.toWorker[1..], pending := pending)))
  {
    hide Accounted, Covered, Core;
    var w := v.w.(phase := Handling(v.w.phase.kind), toWorker := v.w.toWorker[1..], pending := pending);
    AccountedMore(cfg, i, v, Fin, w);
    CoveredSame(cfg, i, v, w, v.stage);
  }

  lemma GoodAcked(cfg: Config, i: nat, v: View)
    requires cfg.procs >= 1 && Good(cfg, i, v) && v.w.phase.Handling? && v.w.asks > 0
    ensures Good(cfg, i, v.(w := v.w.(phase := Running, pending := false,
                                      toServer := v.w.toServer + [Ack(v.w.phase.kind, v.w.asks - 1)])))
  {
    hide Accounted, Covered, Core;
    var w := v.w.(phase := Running, pending := false, toServer := v.w.toServer + [Ack(v.w.phase.kind, v.w.asks - 1)]);
    AccountedMore(cfg, i, v, Fin, w);
    CoveredSame(cfg, i, v, w, v.stage);
  }

  lemma GoodAckTaken(cfg: Config, i: nat, v: View)
    requires cfg.procs >= 1 && Good(cfg, i, v) && v.stage.Negotiated? && v.w.toServer != []
    ensures v.w.toServer[0].Ack? && v.w.toServer[0].id == v.stage.id
    ensures Good(cfg, i, v.(w := v.w.(toServer := v.w.toServer[1..]), stage := Served))
  {
    hide Accounted, Covered, Core, Plain, EndsWith;
    var w := v.w.(toServer := v.w.toServer[1..]);
    AccountedMore(cfg, i, v, Fin, w);
    AccountedStage(cfg, i, v.(w := w), Served);
    CoveredSame(cfg, i, v, w, Served);
  }

  lemma AccountedStage(cfg: Config, i: nat, v: View, stage: Stage)
    requires cfg.procs >= 1 && Accounted(cfg, i, v)
    ensures Accounted(cfg, i, v.(stage := stage))
  {
  }

  lemma AccountedPopped(cfg: Config, i: nat, v: View, slot: Option<Cov>, live: bool)
    requires cfg.procs >= 1 && v.own != [] && Accounted(cfg, i, v)
    ensures var b := v.own[0];
            Accounted(cfg, i, v.(own := v.own[1..], got := v.got + (if b.Item? && b.p.Report? then [b.p.r] else []), slot := slot, live := live))
  {
    hide Waiting, Due, Script;
    var b, rest := v.own[0], v.own[1..];
    var r := if b.Item? && b.p.Report? then [b.p.r] else [];
    assert v.own == [b] + rest;
    WaitingCons(b, rest);
    assert v.got + (r + Waiting(rest)) + Due(v.w.todo) == v.got + r + Waiting(rest) + Due(v.w.todo);
  }

  lemma CoveredGot(cfg: Config, i: nat, v: View, got: seq<int>)
    requires cfg.procs >= 1 && Covered(cfg, i, v)
    ensures Covered(cfg, i, v.(got := got))
  {
    hide LastTodo, LastOwn, Proper, Script, Conclusive;
  }

  lemma GoodReceived(cfg: Config, i: nat, v: View, p: Payload)
    requires cfg.procs >= 1 && v.own != [] && v.own[0] == Item(p) && Good(cfg, i, v)
    ensures Good(cfg, i, v.(own := v.own[1..], got := v.got + (if p.Report? then [p.r] else []),
                            slot := if p.Coverage? then Some(p.c) else v.slot))
  {
    hide Accounted, Covered, Core;
    CorePop(v.own);
    var slot, got := if p.Coverage? then Some(p.c) else v.slot, v.got + if p.Report? then [p.r] else [];
    if v.w.phase.Collecting? || v.w.phase.AwaitIndexes? {
      assert v.got + [] == v.got;
    } else {
      AccountedPopped(cfg, i, v, slot, v.live);
      CoveredPopped(cfg, i, v, v.live);
      CoveredGot(cfg, i, v.(own := v.own[1..], slot := slot), got);
      if !p.Coverage? { TalkPopped(v); }
    }
  }

  /** One plain message less. */
  lemma TalkPopped(v: View)
    requires Talking(v) && Core(v.own) != [] && Core(v.own)[0].Item? && v.own != [] && Core(v.own[1..]) == Core(v.own)[1..]
    ensures forall got, slot :: Talking(v.(own := v.own[1..], got := got, slot := slot))
  {
    hide Core;
    var own, rest := Core(v.own), Core(v.own)[1..];
    assert forall b :: EndsWith(own, b) && !b.Item? ==> EndsWith(rest, b) by {
      if rest != [] { assert rest[..|rest| - 1] == own[..|own| - 1][1..]; }
    }
  }

  /** A request is dequeued while its worker is still awaited, and only when the server owes that
      worker nothing. */
  lemma GoodRequest(cfg: Config, i: nat, v: View, kind: Kind, id: nat, attach: bool)
    requires cfg.procs >= 1 && v.own != [] && v.own[0] == Ask(kind, id) && Good(cfg, i, v) && v.stage == Served
    ensures v.live && v.w.phase == Asked(kind) && id == v.w.asks - 1
    ensures Good(cfg, i, v.(own := v.own[1..], stage := Negotiated(id),
                            w := v.w.(toWorker := v.w.toWorker + [Decision(attach)])))
  {
    hide Accounted, Covered, Core;
    CorePop(v.own);
    OnlyLast(Core(v.own), kind, id);
    var popped, w := v.(own := v.own[1..]), v.w.(toWorker := v.w.toWorker + [Decision(attach)]);
    AccountedPopped(cfg, i, v, v.slot, v.live);
    assert v.got + [] == v.got && popped == v.(own := v.own[1..], got := v.got, slot := v.slot, live := v.live);
    AccountedMore(cfg, i, popped, Fin, w);
    AccountedStage(cfg, i, popped.(w := w), Negotiated(id));
    CoveredPopped(cfg, i, v, v.live);
    CoveredSame(cfg, i, popped, w, Negotiated(id));
  }

  lemma HeadOfFront(own: seq<Body>)
    ensures |own| > 1 ==> own[..|own| - 1][0] == own[0]
    ensures |own| == 1 ==> own == [own[0]]
  {
  }

  lemma OnlyLast(own: seq<Body>, kind: Kind, id: nat)
    requires own != [] && own[0] == Ask(kind, id)
    ensures !Plain(own)
    ensures forall b :: EndsWith(own, b) ==> own == [b]
  {
    HeadOfFront(own);
  }

  lemma GoodGone(cfg: Config, i: nat, v: View)
    requires cfg.procs >= 1 && v.own != [] && v.own[0] == Fin && Good(cfg, i, v) && v.stage == Served
    ensures v.live
    ensures Good(cfg, i, v.(own := v.own[1..], live := false))
  {
    hide Accounted, Covered, Core;
    CorePop(v.own);
    HeadOfFront(Core(v.own));
    AccountedPopped(cfg, i, v, v.slot, false);
    assert v.got + [] == v.got;
    CoveredPopped(cfg, i, v, false);
  }

  lemma GoodStarted(cfg: Config, i: nat, v: View)
    requires cfg.procs >= 1 && Good(cfg, i, v) && v.w.phase == AwaitIndexes && v.w.toWorker != []
    requires cfg.exports(i) ==> !v.w.exporter.Off?
    ensures v.w.toWorker == [Indexes(Assigned(cfg, i))]
    ensures Good(cfg, i, v.(w := v.w.(phase := Running, toWorker := v.w.toWorker[1..], todo := Script(cfg, i))))
  {
    hide Assigned, Proper;
    NoneWaiting(v.own);
    assert [] + [] + Due(Script(cfg, i)) == Due(Script(cfg, i));
  }

  lemma {:induction false} NoneWaiting(own: seq<Body>)
    requires Core(own) == []
    ensures Waiting(own) == []
  {
    if own != [] { NoneWaiting(own[..|own| - 1]); }
  }

  // ----- global steps -------------------------------------------------------------------------

  /** Only worker `i` is concerned. */
  predicate Local(s: State, s': State, i: nat) {
    && |s'.ws| == |s.ws|
    && forall j :: 0 <= j < |s.ws| && j != i ==> ViewOf(s', j) == ViewOf(s, j)
  }

  lemma InvFrom(cfg: Config, s: State, s': State, i: nat)
    requires cfg.procs >= 1 && Inv(cfg, s) && i < cfg.procs && Bounds(cfg, s')
    requires Local(s, s', i) && Good(cfg, i, ViewOf(s', i))
    ensures Inv(cfg, s')
  {
    hide Good, ViewOf;
    assert forall j :: 0 <= j < cfg.procs && j != i ==> Good(cfg, j, ViewOf(s, j));
  }

  /** A worker changes without touching the queue. */
  lemma WorkerOnly(s: State, i: nat, w: Worker)
    requires i < |s.ws|
    ensures var s' := SetWorker(s, i, w); Local(s, s', i) && ViewOf(s', i) == ViewOf(s, i).(w := w)
  {
  }

  lemma WorkerPush(s: State, i: nat, w: Worker, b: Body)
    requires i < |s.ws|
    ensures var s' := Push(SetWorker(s, i, w), i, b);
            Local(s, s', i) && ViewOf(s', i) == ViewOf(s, i).(w := w, own := Own(s.queue, i) + [b])
  {
    hide Own;
    forall j | 0 <= j < |s.ws| ensures Own(s.queue + [Message(i, b)], j) == Own(s.queue, j) + if i == j then [b] else [] {
      OwnPush(s.queue, Message(i, b), j);
    }
    forall j | 0 <= j < |s.ws| && j != i ensures Own(s.queue + [Message(i, b)], j) == Own(s.queue, j) {
      assert Own(s.queue, j) + [] == Own(s.queue, j);
    }
  }

  lemma PutKeeps(cfg: Config, s: State, i: nat, slow: bool, s': State)
    requires cfg.procs >= 1 && Inv(cfg, s) && Next(cfg, s, Act(i, slow)) == Some(s') && s.ws[i].todo[0].Put?
    ensures Inv(cfg, s')
  {
    hide Good, ViewOf, Own, From, Script;
    var v, w := ViewOf(s, i), s.ws[i];
    ViewIs(s, i);
    assert Good(cfg, i, v);
    GoodSent(cfg, i, v, w.todo[0].p);
    WorkerPush(s, i, w.(todo := w.todo[1..]), Item(w.todo[0].p));
    InvFrom(cfg, s, s', i);
  }

  lemma SilentKeeps(cfg: Config, s: State, i: nat, slow: bool, s': State)
    requires cfg.procs >= 1 && Inv(cfg, s) && Next(cfg, s, Act(i, slow)) == Some(s')
    requires s.ws[i].todo[0].StopLive? || s.ws[i].todo[0].Setup? || (s.ws[i].todo[0].Raise? && !s.ws[i].armed)
    ensures Inv(cfg, s')
  {
    hide Good, ViewOf, Own, From, Script;
    var v, w := ViewOf(s, i), s.ws[i];
    ViewIs(s, i);
    assert Good(cfg, i, v);
    var w' := w.(todo := w.todo[1..]);
    if w.todo[0].StopLive? && w.exporter.On? {
      GoodStopped(cfg, i, v, slow);
      WorkerOnly(s, i, if slow then w'.(exporter := Late, slow := true) else w'.(exporter := Stopped));
    } else {
      var armed := w.todo[0].Setup? || w.armed;
      GoodSilent(cfg, i, v, armed);
      WorkerOnly(s, i, w'.(armed := armed));
    }
    InvFrom(cfg, s, s', i);
  }

  lemma AskKeeps(cfg: Config, s: State, i: nat, slow: bool, s': State)
    requires cfg.procs >= 1 && Inv(cfg, s) && Next(cfg, s, Act(i, slow)) == Some(s')
    requires s.ws[i].todo[0].Break? || (s.ws[i].todo[0].Raise? && s.ws[i].armed)
    ensures Inv(cfg, s')
  {
    hide Good, ViewOf, Own, From, Script;
    var v, w := ViewOf(s, i), s.ws[i];
    ViewIs(s, i);
    assert Good(cfg, i, v);
    var kind := if w.todo[0].Break? then Breakpoint else Exception;
    var armed := w.todo[0].Break? && w.armed;
    GoodAsked(cfg, i, v, kind, armed);
    WorkerPush(s, i, w.(todo := w.todo[1..], armed := armed, phase := Asked(kind), asks := w.asks + 1), Ask(kind, w.asks));
    InvFrom(cfg, s, s', i);
  }

  lemma ActKeeps(cfg: Config, s: State, i: nat, slow: bool, s': State)
    requires cfg.procs >= 1 && Inv(cfg, s) && Next(cfg, s, Act(i, slow)) == Some(s')
    ensures Inv(cfg, s')
  {
    hide Inv, DoAction;
    match s.ws[i].todo[0]
    case Put(_) => PutKeeps(cfg, s, i, slow, s');
    case Break => AskKeeps(cfg, s, i, slow, s');
    case Raise => if s.ws[i].armed { AskKeeps(cfg, s, i, slow, s'); } else { SilentKeeps(cfg, s, i, slow, s'); }
    case _ => SilentKeeps(cfg, s, i, slow, s');
  }

  lemma ViewIs(s: State, i: nat)
    requires i < |s.ws|
    ensures var v := ViewOf(s, i); v.w == s.ws[i] && v.own == Own(s.queue, i) && v.stage == StageOf(s.server, i) && v.live == (i in s.live)
  {
  }

  lemma WorkerKeeps(cfg: Config, s: State, step: Step, s': State)
    requires cfg.procs >= 1 && Inv(cfg, s) && Next(cfg, s, step) == Some(s')
    requires step.SendCollected? || step.TakeIndexes? || step.TakeDecision? || step.SendAck? || step.FinishBreakpoint? || step.Finish?
    ensures Inv(cfg, s')
  {
    hide Good, ViewOf, Own, From, Script;
    var i := step.i;
    var v, w := ViewOf(s, i), s.ws[i];
    ViewIs(s, i);
    assert Good(cfg, i, v);
    match step
    case SendCollected(_) =>
      WorkerOnly(s, i, w.(phase := AwaitIndexes, toServer := w.toServer + [Collected]));
      GoodCollected(cfg, i, v);
      InvFrom(cfg, s, s', i);
    case TakeIndexes(_) =>
      GoodStarted(cfg, i, v);
      ScriptIs(cfg, i);
      WorkerOnly(s, i, w.(phase := Running, toWorker := w.toWorker[1..], todo := Script(cfg, i)));
      InvFrom(cfg, s, s', i);
    case TakeDecision(_) =>
      var pending := w.phase.kind == Breakpoint && w.toWorker[0].attach;
      GoodDecided(cfg, i, v, pending);
      WorkerOnly(s, i, w.(phase := Handling(w.phase.kind), toWorker := w.toWorker[1..], pending := pending));
      InvFrom(cfg, s, s', i);
    case SendAck(_) =>
      GoodAcked(cfg, i, v);
      WorkerOnly(s, i, w.(phase := Running, pending := false, toServer := w.toServer + [Ack(w.phase.kind, w.asks - 1)]));
      InvFrom(cfg, s, s', i);
    case FinishBreakpoint(_) =>
      if w.pending {
        PendingHandles(cfg, i, v);
        GoodAcked(cfg, i, v);
        WorkerOnly(s, i, w.(phase := Running, pending := false, toServer := w.toServer + [Ack(Breakpoint, w.asks - 1)]));
        InvFrom(cfg, s, s', i);
      }
    case Finish(_) =>
      GoodFinished(cfg, i, v);
      WorkerPush(s, i, w.(phase := Finished), Fin);
      InvFrom(cfg, s, s', i);
  }

  lemma PendingHandles(cfg: Config, i: nat, v: View)
    requires cfg.procs >= 1 && Good(cfg, i, v) && v.w.pending
    ensures v.w.phase == Handling(Breakpoint) && v.w.asks > 0
  {
    hide Accounted, Covered, Core;
  }

  /** A thread of the worker offers a snapshot. */
  lemma OfferKeeps(cfg: Config, s: State, step: Step, s': State)
    requires cfg.procs >= 1 && Inv(cfg, s) && Next(cfg, s, step) == Some(s') && (step.StartLive? || step.Snapshot?)
    ensures Inv(cfg, s')
  {
    hide Good, ViewOf, Own, From, Script;
    var i, b, room := step.i, Item(Coverage(step.c)), Room(cfg, s);
    var v, w := ViewOf(s, i), s.ws[i];
    ViewIs(s, i);
    assert Good(cfg, i, v);
    var w' := if step.StartLive? then w.(exporter := On) else if w.exporter.Late? then w.(exporter := Stopped) else w;
    if step.StartLive? { GoodExporting(cfg, i, v, step.c, room); } else { GoodSnapshot(cfg, i, v, step.c, room); }
    if room { WorkerPush(s, i, w', b); } else { WorkerOnly(s, i, w'); }
    InvFrom(cfg, s, s', i);
  }

  lemma ScriptIs(cfg: Config, i: nat)
    requires cfg.procs >= 1
    ensures Script(cfg, i) == cfg.script(i, Assigned(cfg, i))
  {
  }

  lemma GoodCollected(cfg: Config, i: nat, v: View)
    requires cfg.procs >= 1 && Good(cfg, i, v) && v.w.phase == Collecting
    ensures Good(cfg, i, v.(w := v.w.(phase := AwaitIndexes, toServer := v.w.toServer + [Collected])))
  {
  }

  // ----- server steps -------------------------------------------------------------------------

  lemma GoodGathered(cfg: Config, i: nat, v: View)
    requires cfg.procs >= 1 && Good(cfg, i, v) && v.stage == Uncollected && v.w.toServer != []
    ensures Good(cfg, i, v.(w := v.w.(toServer := v.w.toServer[1..]), stage := Unassigned))
  {
  }

  lemma GoodAssigned(cfg: Config, i: nat, v: View)
    requires cfg.procs >= 1 && Good(cfg, i, v) && v.stage == Unassigned
    ensures Good(cfg, i, v.(w := v.w.(toWorker := v.w.toWorker + [Indexes(Assigned(cfg, i))]), stage := Served))
  {
  }

  /** The server moves on with one worker. */
  lemma ServerOnly(s: State, i: nat, w: Worker, server: Server)
    requires i < |s.ws|
    requires forall j :: 0 <= j < |s.ws| && j != i ==> StageOf(server, j) == StageOf(s.server, j)
    ensures var s' := SetWorker(s, i, w).(server := server);
            Local(s, s', i) && ViewOf(s', i) == ViewOf(s, i).(w := w, stage := StageOf(server, i))
  {
  }

  lemma ServerKeeps(cfg: Config, s: State, step: Step, s': State)
    requires cfg.procs >= 1 && Inv(cfg, s) && Next(cfg, s, step) == Some(s')
    requires step.GatherOne? || step.AssignOne? || step.TakeAck?
    ensures Inv(cfg, s')
    ensures step.TakeAck? ==> s.ws[s.server.worker].toServer[0].Ack? && s.ws[s.server.worker].toServer[0].id == s.server.id
  {
    hide Good, ViewOf, Own, From, Assigned;
    var i := if step.TakeAck? then s.server.worker else s.server.next;
    var v, w := ViewOf(s, i), s.ws[i];
    ViewIs(s, i);
    assert Good(cfg, i, v);
    match step
    case GatherOne =>
      GoodGathered(cfg, i, v);
      ServerOnly(s, i, w.(toServer := w.toServer[1..]), if i + 1 == cfg.procs then Assign(0) else Gather(i + 1));
      InvFrom(cfg, s, s', i);
    case AssignOne =>
      GoodAssigned(cfg, i, v);
      ServerOnly(s, i, w.(toWorker := w.toWorker + [Indexes(Assigned(cfg, i))]), if i + 1 == cfg.procs then Loop else Assign(i + 1));
      InvFrom(cfg, s, s', i);
    case TakeAck =>
      GoodAckTaken(cfg, i, v);
      ServerOnly(s, i, w.(toServer := w.toServer[1..]), Loop);
      InvFrom(cfg, s, s', i);
  }

  /** Taking the first message off the queue concerns its sender only. */
  lemma PopOthers(queue: seq<Message>, j: nat)
    requires queue != []
    ensures queue[0].from != j ==> Own(queue[1..], j) == Own(queue, j)
    ensures queue[0].from == j ==> Own(queue, j) != [] && Own(queue, j)[0] == queue[0].body && Own(queue[1..], j) == Own(queue, j)[1..]
  {
    OwnPop(queue, j);
    assert [] + Own(queue[1..], j) == Own(queue[1..], j);
  }

  lemma ItemReceived(s: State, i: nat, p: Payload, s': State)
    requires s.queue != [] && s.queue[0] == Message(i, Item(p)) && i < |s.ws| && DoGet(s, false) == Some(s')
    ensures Local(s, s', i)
    ensures var v := ViewOf(s, i);
            && v.own != [] && v.own[0] == Item(p)
            && ViewOf(s', i) == v.(own := v.own[1..], got := v.got + (if p.Report? then [p.r] else []),
                                   slot := if p.Coverage? then Some(p.c) else v.slot)
  {
    hide Own, From;
    forall j | 0 <= j < |s.ws|
      ensures j != i ==> Own(s'.queue, j) == Own(s.queue, j)
      ensures j == i ==> Own(s.queue, j) != [] && Own(s.queue, j)[0] == Item(p) && Own(s'.queue, j) == Own(s.queue, j)[1..]
    {
      PopOthers(s.queue, j);
    }
    if p.Report? {
      forall j | 0 <= j < |s.ws| ensures From(s'.reports, j) == From(s.reports, j) + if j == i then [p.r] else [] {
        FromPush(s.reports, (i, p.r), j);
      }
      forall j | 0 <= j < |s.ws| && j != i ensures From(s'.reports, j) == From(s.reports, j) {
        assert From(s.reports, j) + [] == From(s.reports, j);
      }
    } else {
      assert From(s.reports, i) + [] == From(s.reports, i);
    }
  }

  lemma AskReceived(s: State, i: nat, kind: Kind, id: nat, attach: bool, s': State)
    requires s.queue != [] && s.queue[0] == Message(i, Ask(kind, id)) && DoGet(s, attach) == Some(s') && s.server == Loop
    ensures Local(s, s', i)
    ensures var v := ViewOf(s, i);
            && v.own != [] && v.own[0] == Ask(kind, id)
            && ViewOf(s', i) == v.(own := v.own[1..], stage := Negotiated(id),
                                   w := v.w.(toWorker := v.w.toWorker + [Decision(attach)]))
  {
    hide Own, From;
    forall j | 0 <= j < |s.ws|
      ensures j != i ==> Own(s'.queue, j) == Own(s.queue, j)
      ensures j == i ==> Own(s.queue, j) != [] && Own(s.queue, j)[0] == Ask(kind, id) && Own(s'.queue, j) == Own(s.queue, j)[1..]
    {
      PopOthers(s.queue, j);
    }
  }

  lemma FinReceived(s: State, i: nat, s': State)
    requires s.queue != [] && s.queue[0] == Message(i, Fin) && i < |s.ws| && DoGet(s, false) == Some(s')
    ensures Local(s, s', i)
    ensures var v := ViewOf(s, i);
            && v.own != [] && v.own[0] == Fin
            && ViewOf(s', i) == v.(own := v.own[1..], live := false)
  {
    hide Own, From;
    forall j | 0 <= j < |s.ws|
      ensures j != i ==> Own(s'.queue, j) == Own(s.queue, j)
      ensures j == i ==> Own(s.queue, j) != [] && Own(s.queue, j)[0] == Fin && Own(s'.queue, j) == Own(s.queue, j)[1..]
    {
      PopOthers(s.queue, j);
    }
  }

  lemma GetKeeps(cfg: Config, s: State, attach: bool, s': State)
    requires cfg.procs >= 1 && Inv(cfg, s) && Next(cfg, s, Get(attach)) == Some(s')
    ensures Inv(cfg, s')
  {
    hide Good, ViewOf, Own, From;
    var m := s.queue[0];
    var i := m.from;
    var v := ViewOf(s, i);
    ViewIs(s, i);
    assert Good(cfg, i, v);
    match m.body
    case Item(p) =>
      ItemReceived(s, i, p, s');
      GoodReceived(cfg, i, v, p);
      InvFrom(cfg, s, s', i);
    case Ask(kind, id) =>
      AskReceived(s, i, kind, id, attach, s');
      GoodRequest(cfg, i, v, kind, id, attach);
      InvFrom(cfg, s, s', i);
    case Fin =>
      FinReceived(s, i, s');
      GoodGone(cfg, i, v);
      InvFrom(cfg, s, s', i);
  }

  // ----- every reachable state ----------------------------------------------------------------

  lemma InitInv(cfg: Config)
    requires ValidConfig(cfg)
    ensures Inv(cfg, Init(cfg))
  {
  }

  lemma StepKeeps(cfg: Config, s: State, step: Step, s': State)
    requires cfg.procs >= 1 && Inv(cfg, s) && Next(cfg, s, step) == Some(s')
    ensures Inv(cfg, s')
  {
    match step
    case Act(i, slow) => ActKeeps(cfg, s, i, slow, s');
    case StartLive(_, _) => OfferKeeps(cfg, s, step, s');
    case Snapshot(_, _) => OfferKeeps(cfg, s, step, s');
    case Get(attach) => GetKeeps(cfg, s, attach, s');
    case GatherOne => ServerKeeps(cfg, s, step, s');
    case AssignOne => ServerKeeps(cfg, s, step, s');
    case TakeAck => ServerKeeps(cfg, s, step, s');
    case _ => WorkerKeeps(cfg, s, step, s');
  }

  /** The invariant holds in every state of every run. */
  lemma {:induction false} RunInv(cfg: Config, states: seq<State>, steps: seq<Step>, k: nat)
    requires ValidConfig(cfg) && IsRun(cfg, states, steps) && k <= |steps|
    ensures Inv(cfg, states[k])
    decreases k
  {
    hide Next, Inv;
    if k == 0 {
      InitInv(cfg);
    } else {
      RunInv(cfg, states, steps, k - 1);
      StepKeeps(cfg, states[k - 1], steps[k - 1], states[k]);
    }
  }
}
