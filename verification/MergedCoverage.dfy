/** The coverage of a finished multiprocess run: every worker's last snapshot, added up. */
module MergedCoverage {
  import opened Wrappers
  import opened MpRunner
  import opened MpSafety
  import MpSteps
  import MpTheorems
  import opened Lcov
  import opened LcovTheorems

  /** The reports in the slots below `n`, in worker order. */
  function SlotsBelow(slots: map<nat, Cov>, n: nat): seq<Files> {
    if n == 0 then []
    else SlotsBelow(slots, n - 1) + if n - 1 in slots then [slots[n - 1]] else []
  }

  /** `_merged_coverage`: the slots merged afresh, in worker order. */
  method MergeSlots(slots: map<nat, Cov>, procs: nat) returns (merged: Files)
    requires forall i :: i in slots ==> i < procs
    ensures merged == Total(SlotsBelow(slots, procs))
  {
    hide Sum;
    merged := map[];
    for i := 0 to procs
      invariant merged == Total(SlotsBelow(slots, i))
    {
      if i in slots {
        ghost var some, more := SlotsBelow(slots, i), SlotsBelow(slots, i + 1);
        assert more[..|more| - 1] == some && more[|more| - 1] == slots[i];
        merged := MergeInto(merged, slots[i]);
      } else {
        assert SlotsBelow(slots, i + 1) == SlotsBelow(slots, i);
      }
    }
  }

  /** What worker `i`'s last coverage report says of a line. */
  function LastCount(cfg: Config, i: nat, p: string, n: int): int
    requires cfg.procs >= 1
  {
    match LastTodo(Script(cfg, i), None)
    case Some(c) => HitsOf(LinesOf(c, p), n)
    case None => 0
  }

  function LastCounts(cfg: Config, k: nat, p: string, n: int): int
    requires cfg.procs >= 1
  {
    if k == 0 then 0 else LastCounts(cfg, k - 1, p, n) + LastCount(cfg, k - 1, p, n)
  }

  lemma {:induction false} SlotCounts(cfg: Config, slots: map<nat, Cov>, k: nat, p: string, n: int)
    requires cfg.procs >= 1
    requires forall i :: 0 <= i < k ==> LastTodo(Script(cfg, i), None) == if i in slots then Some(slots[i]) else None
    ensures CountOver(SlotsBelow(slots, k), p, n) == LastCounts(cfg, k, p, n)
  {
    hide LastTodo, Script;
    if k > 0 {
      SlotCounts(cfg, slots, k - 1, p, n);
      var some, more := SlotsBelow(slots, k - 1), SlotsBelow(slots, k);
      if k - 1 in slots {
        assert more[..|more| - 1] == some && more[|more| - 1] == slots[k - 1];
      } else {
        assert more == some;
      }
    }
  }

  /** When a run can only idle on, the merged count of every line is the sum of the counts in each
      worker's last report, whatever the interleaving of workers and exporters and however many
      snapshots came before, if every exporter ended in the time allowed. */
  lemma MergedIsSum(cfg: Config, states: seq<State>, steps: seq<Step>, p: string, n: int)
    requires ValidConfig(cfg) && IsRun(cfg, states, steps)
    requires forall step :: Next(cfg, states[|steps|], step).Some? ==> MpTheorems.Idling(states[|steps|], step)
    requires forall i :: 0 <= i < cfg.procs ==> Conclusive(cfg, i)
    requires forall i :: 0 <= i < |states[|steps|].ws| ==> !states[|steps|].ws[i].slow
    ensures var slots := states[|steps|].slots;
            && (forall i :: i in slots ==> i < cfg.procs)
            && HitsOf(LinesOf(Total(SlotsBelow(slots, cfg.procs)), p), n) == LastCounts(cfg, cfg.procs, p, n)
  {
    hide Next, Good, Conclusive, LastTodo, Total, Script, Over, MpTheorems.Idling;
    var s := states[|steps|];
    MpSteps.RunInv(cfg, states, steps, |steps|);
    MpTheorems.RunResult(cfg, states, steps);
    forall i | 0 <= i < cfg.procs
      ensures LastTodo(Script(cfg, i), None) == if i in s.slots then Some(s.slots[i]) else None
    {
      assert MpTheorems.Delivered(cfg, s, i);
    }
    SlotCounts(cfg, s.slots, cfg.procs, p, n);
    TotalAt(SlotsBelow(s.slots, cfg.procs), p, n);
  }
}
