/** An exporter that is still busy when the time for joining it is over can overwrite the final
    report: a run in which it does. */
module MpLate {
  import opened Wrappers
  import opened MpRunner
  import opened MpSafety

  /** One worker without tests, which stops its exporter and puts its final report. */
  function Lone(last: Cov): Config {
    Config(1, 0, 3, false, (i: nat) => true, (i: nat, list: seq<nat>) => [StopLive, Put(Coverage(last))])
  }

  function At(phase: Phase, todo: seq<Action>, exporter: Exporter, up: seq<Up>, down: seq<Down>): Worker {
    Worker(phase, todo, true, false, 0, exporter, exporter.Late? || exporter.Stopped?, up, down)
  }

  function Alone(w: Worker, queue: seq<Message>, server: Server, slots: map<nat, Cov>): State {
    State([w], queue, server, {0}, [], slots)
  }

  function Cover(c: Cov): Message {
    Message(0, Item(Coverage(c)))
  }

  lemma Single<T>(x: T)
    ensures [] + [x] == [x] && [x][1..] == []
  {
  }

  lemma SetOnly(s: State, w: Worker)
    requires |s.ws| == 1
    ensures SetWorker(s, 0, w) == s.(ws := [w])
  {
    assert s.ws[0 := w] == [w];
  }

  lemma Started(cfg: Config, e: Cov, last: Cov)
    requires cfg == Lone(last)
    ensures Init(cfg) == Alone(At(Collecting, [], Off, [], []), [], Gather(0), map[])
    ensures Next(cfg, Alone(At(Collecting, [], Off, [], []), [], Gather(0), map[]), SendCollected(0))
            == Some(Alone(At(AwaitIndexes, [], Off, [Collected], []), [], Gather(0), map[]))
    ensures Next(cfg, Alone(At(AwaitIndexes, [], Off, [Collected], []), [], Gather(0), map[]), StartLive(0, e))
            == Some(Alone(At(AwaitIndexes, [], On, [Collected], []), [Cover(e)], Gather(0), map[]))
  {
    assert Upto(1) == {0} by { assert Upto(0) == {}; }
    assert Init(cfg).ws == [At(Collecting, [], Off, [], [])];
    Single(Collected);
    Single(Cover(e));
    SetOnly(Alone(At(Collecting, [], Off, [], []), [], Gather(0), map[]), At(AwaitIndexes, [], Off, [Collected], []));
    SetOnly(Alone(At(AwaitIndexes, [], Off, [Collected], []), [], Gather(0), map[]), At(AwaitIndexes, [], On, [Collected], []));
  }

  lemma Assigned(cfg: Config, e: Cov, last: Cov)
    requires cfg == Lone(last)
    ensures Next(cfg, Alone(At(AwaitIndexes, [], On, [Collected], []), [Cover(e)], Gather(0), map[]), GatherOne)
            == Some(Alone(At(AwaitIndexes, [], On, [], []), [Cover(e)], Assign(0), map[]))
    ensures Next(cfg, Alone(At(AwaitIndexes, [], On, [], []), [Cover(e)], Assign(0), map[]), AssignOne)
            == Some(Alone(At(AwaitIndexes, [], On, [], [Indexes([])]), [Cover(e)], Loop, map[]))
    ensures Next(cfg, Alone(At(AwaitIndexes, [], On, [], [Indexes([])]), [Cover(e)], Loop, map[]), TakeIndexes(0))
            == Some(Alone(At(Running, [StopLive, Put(Coverage(last))], On, [], []), [Cover(e)], Loop, map[]))
  {
    SetOnly(Alone(At(AwaitIndexes, [], On, [Collected], []), [Cover(e)], Gather(0), map[]), At(AwaitIndexes, [], On, [], []));
    SetOnly(Alone(At(AwaitIndexes, [], On, [], []), [Cover(e)], Assign(0), map[]), At(AwaitIndexes, [], On, [], [Indexes([])]));
    SetOnly(Alone(At(AwaitIndexes, [], On, [], [Indexes([])]), [Cover(e)], Loop, map[]),
            At(Running, [StopLive, Put(Coverage(last))], On, [], []));
    assert MpRunner.Assigned(cfg, 0) == [];
    Single(Collected);
    Single(Indexes([]));
  }

  lemma Ending(cfg: Config, e: Cov, last: Cov, late: Cov)
    requires cfg == Lone(last)
    ensures Next(cfg, Alone(At(Running, [StopLive, Put(Coverage(last))], On, [], []), [Cover(e)], Loop, map[]), Act(0, true))
            == Some(Alone(At(Running, [Put(Coverage(last))], Late, [], []), [Cover(e)], Loop, map[]))
    ensures Next(cfg, Alone(At(Running, [Put(Coverage(last))], Late, [], []), [Cover(e)], Loop, map[]), Act(0, false))
            == Some(Alone(At(Running, [], Late, [], []), [Cover(e), Cover(last)], Loop, map[]))
    ensures Next(cfg, Alone(At(Running, [], Late, [], []), [Cover(e), Cover(last)], Loop, map[]), Snapshot(0, late))
            == Some(Alone(At(Running, [], Stopped, [], []), [Cover(e), Cover(last), Cover(late)], Loop, map[]))
  {
    var todo := [StopLive, Put(Coverage(last))];
    assert todo[1..] == [Put(Coverage(last))] && [Put(Coverage(last))][1..] == [];
    SetOnly(Alone(At(Running, todo, On, [], []), [Cover(e)], Loop, map[]), At(Running, [Put(Coverage(last))], Late, [], []));
    SetOnly(Alone(At(Running, [Put(Coverage(last))], Late, [], []), [Cover(e)], Loop, map[]), At(Running, [], Late, [], []));
    SetOnly(Alone(At(Running, [], Late, [], []), [Cover(e), Cover(last)], Loop, map[]), At(Running, [], Stopped, [], []));
    assert [Cover(e)] + [Cover(last)] == [Cover(e), Cover(last)];
    assert [Cover(e), Cover(last)] + [Cover(late)] == [Cover(e), Cover(last), Cover(late)];
  }

  lemma Received(cfg: Config, w: Worker, c: Cov, rest: seq<Message>, slots: map<nat, Cov>)
    requires cfg.procs >= 1
    ensures Next(cfg, Alone(w, [Cover(c)] + rest, Loop, slots), Get(false)) == Some(Alone(w, rest, Loop, slots[0 := c]))
  {
    assert ([Cover(c)] + rest)[1..] == rest;
  }

  lemma Finishing(cfg: Config, slots: map<nat, Cov>, last: Cov)
    requires cfg == Lone(last)
    ensures Next(cfg, Alone(At(Running, [], Stopped, [], []), [], Loop, slots), Finish(0))
            == Some(Alone(At(Finished, [], Stopped, [], []), [Message(0, Fin)], Loop, slots))
    ensures Next(cfg, Alone(At(Finished, [], Stopped, [], []), [Message(0, Fin)], Loop, slots), Get(false))
            == Some(Alone(At(Finished, [], Stopped, [], []), [], Loop, slots).(live := {}))
  {
    SetOnly(Alone(At(Running, [], Stopped, [], []), [], Loop, slots), At(Finished, [], Stopped, [], []));
    Single(Message(0, Fin));
    assert {0} - {0} == {};
  }

  /** Some run leads to this state. */
  ghost predicate Reached(cfg: Config, s: State)
    requires cfg.procs >= 1
  {
    exists states, steps :: IsRun(cfg, states, steps) && states[|steps|] == s
  }

  lemma ReachedNext(cfg: Config, s: State, step: Step, s': State)
    requires cfg.procs >= 1 && Reached(cfg, s) && Next(cfg, s, step) == Some(s')
    ensures Reached(cfg, s')
  {
    hide Next, Init;
    var states, steps :| IsRun(cfg, states, steps) && states[|steps|] == s;
    var more, all := steps + [step], states + [s'];
    assert all[|more|] == s';
    assert IsRun(cfg, all, more);
  }

  lemma ReachedInit(cfg: Config)
    requires cfg.procs >= 1
    ensures Reached(cfg, Init(cfg))
  {
    assert IsRun(cfg, [Init(cfg)], []) && [Init(cfg)][0] == Init(cfg);
  }

  lemma ReachedRunning(cfg: Config, e: Cov, last: Cov)
    requires cfg == Lone(last)
    ensures Reached(cfg, Alone(At(Running, [StopLive, Put(Coverage(last))], On, [], []), [Cover(e)], Loop, map[]))
  {
    hide Next, Init, Reached, At, Alone;
    ReachedInit(cfg);
    Started(cfg, e, last);
    Assigned(cfg, e, last);
    var s1 := Alone(At(AwaitIndexes, [], Off, [Collected], []), [], Gather(0), map[]);
    var s2 := Alone(At(AwaitIndexes, [], On, [Collected], []), [Cover(e)], Gather(0), map[]);
    var s3 := Alone(At(AwaitIndexes, [], On, [], []), [Cover(e)], Assign(0), map[]);
    var s4 := Alone(At(AwaitIndexes, [], On, [], [Indexes([])]), [Cover(e)], Loop, map[]);
    ReachedNext(cfg, Init(cfg), SendCollected(0), s1);
    ReachedNext(cfg, s1, StartLive(0, e), s2);
    ReachedNext(cfg, s2, GatherOne, s3);
    ReachedNext(cfg, s3, AssignOne, s4);
    ReachedNext(cfg, s4, TakeIndexes(0), Alone(At(Running, [StopLive, Put(Coverage(last))], On, [], []), [Cover(e)], Loop, map[]));
  }

  lemma ReachedLate(cfg: Config, e: Cov, last: Cov, late: Cov)
    requires cfg == Lone(last)
    ensures Reached(cfg, Alone(At(Running, [], Stopped, [], []), [Cover(e), Cover(last), Cover(late)], Loop, map[]))
  {
    hide Next, Init, Reached, At, Alone;
    ReachedRunning(cfg, e, last);
    Ending(cfg, e, last, late);
    var s5 := Alone(At(Running, [StopLive, Put(Coverage(last))], On, [], []), [Cover(e)], Loop, map[]);
    var s6 := Alone(At(Running, [Put(Coverage(last))], Late, [], []), [Cover(e)], Loop, map[]);
    var s7 := Alone(At(Running, [], Late, [], []), [Cover(e), Cover(last)], Loop, map[]);
    ReachedNext(cfg, s5, Act(0, true), s6);
    ReachedNext(cfg, s6, Act(0, false), s7);
    ReachedNext(cfg, s7, Snapshot(0, late), Alone(At(Running, [], Stopped, [], []), [Cover(e), Cover(last), Cover(late)], Loop, map[]));
  }

  /** A run ends with the late snapshot in the slot: the final report was received and then
      overwritten. */
  lemma LateSnapshotWins(e: Cov, last: Cov, late: Cov) returns (s: State)
    ensures var cfg := Lone(last);
            && ValidConfig(cfg) && Conclusive(cfg, 0) && LastTodo(Script(cfg, 0), None) == Some(last)
            && Reached(cfg, s) && Over(s) && s.slots == map[0 := late]
  {
    hide Next, Init, Reached, At;
    var cfg, w, w' := Lone(last), At(Running, [], Stopped, [], []), At(Finished, [], Stopped, [], []);
    LoneScript(cfg, last);
    ReachedLate(cfg, e, last, late);
    assert [Cover(e)] + [Cover(last), Cover(late)] == [Cover(e), Cover(last), Cover(late)];
    assert [Cover(last)] + [Cover(late)] == [Cover(last), Cover(late)] && [Cover(late)] + [] == [Cover(late)];
    assert map[][0 := e] == map[0 := e] && map[0 := e][0 := last] == map[0 := last] && map[0 := last][0 := late] == map[0 := late];
    var s8, s9 := Alone(w, [Cover(e), Cover(last), Cover(late)], Loop, map[]), Alone(w, [Cover(last), Cover(late)], Loop, map[0 := e]);
    var s10, s11 := Alone(w, [Cover(late)], Loop, map[0 := last]), Alone(w, [], Loop, map[0 := late]);
    var s12 := Alone(w', [Message(0, Fin)], Loop, map[0 := late]);
    s := Alone(w', [], Loop, map[0 := late]).(live := {});
    Received(cfg, w, e, [Cover(last), Cover(late)], map[]);
    Received(cfg, w, last, [Cover(late)], map[0 := e]);
    Received(cfg, w, late, [], map[0 := last]);
    Finishing(cfg, map[0 := late], last);
    ReachedNext(cfg, s8, Get(false), s9);
    ReachedNext(cfg, s9, Get(false), s10);
    ReachedNext(cfg, s10, Get(false), s11);
    ReachedNext(cfg, s11, Finish(0), s12);
    ReachedNext(cfg, s12, Get(false), s);
  }

  lemma LoneScript(cfg: Config, last: Cov)
    requires cfg == Lone(last)
    ensures Conclusive(cfg, 0) && LastTodo(Script(cfg, 0), None) == Some(last)
  {
    var todo := [StopLive, Put(Coverage(last))];
    assert Script(cfg, 0) == todo;
    assert todo[0].StopLive? && todo[1].Put? && Proper(todo);
    assert todo[1..] == [Put(Coverage(last))] && todo[1..][1..] == [];
    assert LastTodo(todo[1..], None) == LastTodo(todo[1..][1..], Some(last)) == Some(last);
  }
}
