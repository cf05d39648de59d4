/** Replay without any assumption about the endpoint: sessions whose operations fit in one batch. */
module HydrationReplay {
  import opened Wrappers
  import opened Hydration
  import opened HydrationTheorems
  import opened HydrationSafety
  import opened HydrationLimits

  // ----- sizes --------------------------------------------------------------------------------

  lemma {:induction false} FewWanted(env: Env, inner: Accounts, seen: set<Addr>, keys: seq<Addr>)
    ensures |Wanted(env, inner, seen, keys).1| <= |keys|
  {
    if keys != [] { FewWanted(env, inner, seen, keys[..|keys| - 1]); }
  }

  lemma {:induction false} FewMisses(store: map<Addr, Option<Acct>>, keys: seq<Addr>)
    ensures |Misses(store, keys)| <= |keys|
  {
    if keys != [] { FewMisses(store, keys[..|keys| - 1]); }
  }

  lemma {:induction false} FewFollowups(env: Env, inner: Accounts, seen: set<Addr>, keys: seq<Addr>, out: seq<Option<Acct>>)
    requires |keys| == |out|
    ensures |Sift(env, inner, seen, keys, out).followups| <= |keys|
  {
    hide ProgramdataAddress;
    if keys != [] { FewFollowups(env, inner, seen, keys[..|keys| - 1], out[..|keys| - 1]); }
  }

  /** Indexes that the lookups of a message name. */
  function Indexes(lookups: seq<TableLookup>): nat {
    if lookups == [] then 0 else Indexes(lookups[..|lookups| - 1]) + |lookups[|lookups| - 1].Indexes()|
  }

  lemma {:induction false} FewPicked(addrs: seq<Addr>, indexes: seq<nat>)
    ensures |Pick(addrs, indexes)| <= |indexes|
  {
    if indexes != [] { FewPicked(addrs, indexes[..|indexes| - 1]); }
  }

  lemma {:induction false} FewResolved(env: Env, inner: Accounts, lookups: seq<TableLookup>)
    ensures var r := Resolve(env, inner, lookups); r.Some? ==> |r.value| <= Indexes(lookups)
  {
    if lookups != [] {
      var n := |lookups| - 1;
      FewResolved(env, inner, lookups[..n]);
      if lookups[n].table in inner {
        var addrs := env.readTable(inner[lookups[n].table].data);
        if addrs.Some? { FewPicked(addrs.value, lookups[n].Indexes()); }
      }
    }
  }

  // ----- sessions of small operations ---------------------------------------------------------

  /** The operation asks for no more keys at a time than fit in one batch, repeated or not. */
  predicate Small(op: Op) {
    match op
    case Touch(keys) => |keys| <= BATCH
    case Message(keys, lookups) => |keys| + |lookups| <= BATCH && Indexes(lookups) <= BATCH
    case _ => true
  }

  lemma SmallFetch(env: Env, w: World, keys: seq<Addr>)
    requires |keys| <= BATCH
    ensures CleanFetch(env, w, keys)
  {
    FewMisses(w.store, keys);
    CleanWhen(env, w, keys);
  }

  lemma SmallEnsure(env: Env, w: World, keys: seq<Addr>)
    requires |keys| <= BATCH
    ensures CleanEnsure(env, w, keys)
  {
    hide CleanFetch, Wanted, Fetch, Sift;
    var (seen, wanted) := Wanted(env, w.inner, w.seen, keys);
    FewWanted(env, w.inner, w.seen, keys);
    var w1 := w.(seen := seen);
    SmallFetch(env, w1, wanted);
    var first := Fetch(env, w1, wanted);
    if first.Got? {
      var plan := Sift(env, w.inner, seen, wanted, first.out);
      FewFollowups(env, w.inner, seen, wanted, first.out);
      SmallFetch(env, first.w.(seen := plan.seen), plan.followups);
    }
  }

  lemma SmallExec(env: Env, w: World, op: Op)
    requires Small(op)
    ensures CleanExec(env, w, op)
  {
    hide CleanEnsure, EnsurePresent, Resolve;
    match op
    case Touch(keys) => SmallEnsure(env, w, keys);
    case Message(keys, lookups) =>
      SmallEnsure(env, w, keys + Tables(lookups));
      var first := EnsurePresent(env, w, keys + Tables(lookups));
      FewResolved(env, first.w.inner, lookups);
      var resolved := Resolve(env, first.w.inner, lookups);
      if resolved.Some? && resolved.value != [] { SmallEnsure(env, first.w, resolved.value); }
    case _ =>
  }

  lemma {:induction false} SmallRun(env: Env, w: World, ops: seq<Op>)
    requires forall i :: 0 <= i < |ops| ==> Small(ops[i])
    ensures CleanRun(env, w, ops)
  {
    hide CleanExec, Exec, Small;
    if ops != [] {
      var n := |ops| - 1;
      SmallRun(env, w, ops[..n]);
      if Run(env, w, ops[..n]).Some? { SmallExec(env, Run(env, w, ops[..n]).value, ops[n]); }
    }
  }

  /** A session of operations that fit in one batch, and that succeeded online, replays offline state
      for state, whatever the endpoint answered and however the chain moved. */
  lemma SmallReplay(env: Env, w: World, ops: seq<Op>, store: map<Addr, Option<Acct>>, k: nat)
    requires env.rpc.Online? && Run(env, w, ops).Some? && forall i :: 0 <= i < |ops| ==> Small(ops[i])
    requires Within(Run(env, w, ops).value.store, store) && k <= |ops|
    ensures Run(env, w, ops[..k]).Some?
    ensures Run(Off(env), Over(w, store), ops[..k]) == Some(Over(Run(env, w, ops[..k]).value, store))
  {
    hide Run, CleanRun, Small, Within;
    SmallRun(env, w, ops);
    OfflineReplay(env, w, ops, store, k);
  }

  // ----- distinct keys ------------------------------------------------------------------------

  predicate Distinct(keys: seq<Addr>) {
    forall i, j :: 0 <= i < j < |keys| ==> keys[i] != keys[j]
  }

  lemma {:induction false} WantedDistinct(env: Env, inner: Accounts, seen: set<Addr>, keys: seq<Addr>)
    requires Distinct(keys)
    ensures Distinct(Wanted(env, inner, seen, keys).1)
  {
    if keys != [] {
      var n := |keys| - 1;
      WantedDistinct(env, inner, seen, keys[..n]);
      WantedIs(env, inner, seen, keys[..n]);
      var front := Wanted(env, inner, seen, keys[..n]).1;
      forall i | 0 <= i < |front| ensures front[i] != keys[n] { assert front[i] in keys[..n]; }
    }
  }

  /** With distinct keys, however many, a call needs no assumption either, as long as its follow-ups
      are distinct or fit in one batch. */
  lemma DistinctEnsure(env: Env, w: World, keys: seq<Addr>)
    requires Distinct(keys)
    requires var (seen, wanted) := Wanted(env, w.inner, w.seen, keys);
             var first := Fetch(env, w.(seen := seen), wanted);
             first.Got? ==>
               var followups := Sift(env, w.inner, seen, wanted, first.out).followups;
               Distinct(followups) || |followups| <= BATCH
    ensures CleanEnsure(env, w, keys)
  {
    hide CleanFetch, Wanted, Fetch, Sift, Distinct;
    var (seen, wanted) := Wanted(env, w.inner, w.seen, keys);
    var w1 := w.(seen := seen);
    WantedDistinct(env, w.inner, w.seen, keys);
    DistinctFetch(env, w1, wanted);
    var first := Fetch(env, w1, wanted);
    if first.Got? {
      var plan := Sift(env, w.inner, seen, wanted, first.out);
      var w2 := first.w.(seen := plan.seen);
      if Distinct(plan.followups) { DistinctFetch(env, w2, plan.followups); } else { SmallFetch(env, w2, plan.followups); }
    }
  }

  lemma DistinctFetch(env: Env, w: World, keys: seq<Addr>)
    requires Distinct(keys)
    ensures CleanFetch(env, w, keys)
  {
    hide Misses;
    CleanWhen(env, w, keys);
  }

  /** Distinct keys alone are not enough: 101 programs that share one programdata account make it be
      asked for 101 times, in two batches. */
  lemma SharedProgramdata(env: Env, w: World, keys: seq<Addr>, progs: seq<Acct>, d: Addr, acc: Acct)
    requires |keys| == |progs| == BATCH + 1 && Distinct(keys) && d !in keys && Unknown(env, w, d) && d !in w.store
    requires forall i :: 0 <= i <= BATCH ==>
               && Unknown(env, w, keys[i]) && keys[i] in w.store && w.store[keys[i]] == Some(progs[i])
               && progs[i].owner !in env.excludePrograms && Target(env, progs[i]) == Some(d)
    requires Vanishes(env, w.fetches, d, acc)
    ensures !CleanEnsure(env, w, keys)
  {
    hide CleanFetch, Wanted, Fetch, Sift, Target, Vanishes, Distinct;
    AllWanted(env, w, keys);
    AllStored(env, w, keys, progs);
    assert w == w.(seen := w.seen);
    AllPoint(env, w, keys, Given(progs), d);
    var plan := Sift(env, w.inner, w.seen, keys, Given(progs));
    CopiesUnclean(env, w.(seen := plan.seen), d, acc);
  }

  function Given(progs: seq<Acct>): (r: seq<Option<Acct>>)
    ensures |r| == |progs| && forall i :: 0 <= i < |progs| ==> r[i] == Some(progs[i])
  {
    seq(|progs|, (i: nat) requires i < |progs| => Some(progs[i]))
  }

  lemma {:induction false} AllWanted(env: Env, w: World, keys: seq<Addr>)
    requires forall i :: 0 <= i < |keys| ==> Unknown(env, w, keys[i])
    ensures Wanted(env, w.inner, w.seen, keys) == (w.seen, keys)
  {
    if keys != [] {
      AllWanted(env, w, keys[..|keys| - 1]);
      assert keys[..|keys| - 1] + [keys[|keys| - 1]] == keys;
    }
  }

  lemma AllStored(env: Env, w: World, keys: seq<Addr>, progs: seq<Acct>)
    requires |keys| == |progs| && forall i :: 0 <= i < |keys| ==> keys[i] in w.store && w.store[keys[i]] == Some(progs[i])
    ensures Fetch(env, w, keys) == Got(w, Given(progs))
  {
    hide Misses;
    NoMisses(w.store, keys);
    assert Cached(w.store, keys) == Given(progs);
  }

  lemma {:induction false} AllPoint(env: Env, w: World, keys: seq<Addr>, out: seq<Option<Acct>>, d: Addr)
    requires |keys| == |out| && d !in keys && d !in w.seen && d !in w.inner && !Excluded(env, d)
    requires forall i :: 0 <= i < |keys| ==> Kept(env, out[i]) && Target(env, out[i].value) == Some(d)
    ensures Sift(env, w.inner, w.seen, keys, out).followups == Copies(d, |keys|)
  {
    hide ProgramdataAddress;
    if keys != [] {
      var n := |keys| - 1;
      AllPoint(env, w, keys[..n], out[..n], d);
      SiftIs(env, w.inner, w.seen, keys[..n], out[..n]);
      assert Copies(d, n) + [d] == Copies(d, n + 1);
    }
  }

  lemma CopiesUnclean(env: Env, w: World, d: Addr, acc: Acct)
    requires Vanishes(env, w.fetches, d, acc) && d !in w.store
    ensures !CleanFetch(env, w, Copies(d, BATCH + 1))
  {
    hide Misses, Answers, AllUp;
    var keys := Copies(d, BATCH + 1);
    CopiesMissed(w.store, d, BATCH + 1);
    var misses := Misses(w.store, keys);
    VanishingAnswers(env, w.fetches, d, acc, keys, misses);
    var answers := Answers(env.rpc, w.fetches, keys, misses);
    assert answers[0] == Some(acc) && answers[BATCH] == None;
    assert keys[misses[0]] == keys[misses[BATCH]];
  }
}
