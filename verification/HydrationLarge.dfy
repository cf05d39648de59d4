/** Replay of sessions whose operations ask for any number of distinct keys, with a bound on the
    upgradeable programs among them. */
module HydrationLarge {
  import opened Wrappers
  import opened Hydration
  import opened HydrationTheorems
  import opened HydrationSafety
  import opened HydrationReplay

  // ----- where programs are -------------------------------------------------------------------

  /** An upgradeable program, which points at a programdata account. */
  predicate Program(env: Env, fetched: Option<Acct>) {
    fetched.Some? && Target(env, fetched.value).Some?
  }

  ghost predicate StoredIn(env: Env, store: map<Addr, Option<Acct>>, programs: set<Addr>) {
    forall k :: k in store && Program(env, store[k]) ==> k in programs
  }

  /** The endpoint answers with upgradeable programs at these addresses only, whenever it is asked. */
  ghost predicate AnsweredIn(env: Env, programs: set<Addr>) {
    env.rpc.Online? ==> forall t, b, k :: Program(env, env.rpc.answer(t, b, k)) ==> k in programs
  }

  ghost predicate FoundIn(env: Env, keys: seq<Addr>, out: seq<Option<Acct>>, programs: set<Addr>)
    requires |keys| == |out|
  {
    forall i :: 0 <= i < |keys| && Program(env, out[i]) ==> keys[i] in programs
  }

  lemma {:induction false} RecordIn(env: Env, store: map<Addr, Option<Acct>>, out: seq<Option<Acct>>, keys: seq<Addr>,
                                    misses: seq<nat>, answers: seq<Option<Acct>>, programs: set<Addr>)
    requires |out| == |keys| && |misses| == |answers| && forall m :: 0 <= m < |misses| ==> misses[m] < |keys|
    requires StoredIn(env, store, programs) && FoundIn(env, keys, out, programs)
    requires forall m :: 0 <= m < |misses| && Program(env, answers[m]) ==> keys[misses[m]] in programs
    ensures var (s, o) := Record(store, out, keys, misses, answers);
            StoredIn(env, s, programs) && FoundIn(env, keys, o, programs)
    decreases misses
  {
    hide Program;
    if misses != [] {
      var n := |misses| - 1;
      RecordIn(env, store, out, keys, misses[..n], answers[..n], programs);
    }
  }

  lemma FetchIn(env: Env, w: World, keys: seq<Addr>, programs: set<Addr>)
    requires StoredIn(env, w.store, programs) && AnsweredIn(env, programs)
    ensures var r := Fetch(env, w, keys);
            StoredIn(env, r.w.store, programs) && (r.Got? ==> FoundIn(env, keys, r.out, programs))
  {
    hide Misses, Record, Program;
    var misses, cached := Misses(w.store, keys), Cached(w.store, keys);
    assert FoundIn(env, keys, cached, programs) by { NoProgram(env); }
    if misses != [] && env.rpc.Online? {
      RecordIn(env, w.store, cached, keys, misses, Answers(env.rpc, w.fetches, keys, misses), programs);
    }
  }

  lemma NoProgram(env: Env)
    ensures !Program(env, None)
  {
  }

  lemma EnsureIn(env: Env, w: World, keys: seq<Addr>, programs: set<Addr>)
    requires StoredIn(env, w.store, programs) && AnsweredIn(env, programs)
    ensures StoredIn(env, EnsurePresent(env, w, keys).w.store, programs)
  {
    hide Wanted, Fetch, Sift, Supplement, Inject, StoredIn, AnsweredIn;
    var (seen, wanted) := Wanted(env, w.inner, w.seen, keys);
    var w1 := w.(seen := seen);
    FetchIn(env, w1, wanted, programs);
    var first := Fetch(env, w1, wanted);
    if first.Got? {
      var plan := Sift(env, w.inner, seen, wanted, first.out);
      FetchIn(env, first.w.(seen := plan.seen), plan.followups, programs);
    }
  }

  lemma ExecIn(env: Env, w: World, op: Op, programs: set<Addr>)
    requires StoredIn(env, w.store, programs) && AnsweredIn(env, programs)
    ensures StoredIn(env, Exec(env, w, op).w.store, programs)
  {
    hide EnsurePresent, Resolve, StoredIn, AnsweredIn;
    match op
    case Touch(keys) => EnsureIn(env, w, keys, programs);
    case Message(keys, lookups) =>
      EnsureIn(env, w, keys + Tables(lookups), programs);
      var first := EnsurePresent(env, w, keys + Tables(lookups));
      var resolved := Resolve(env, first.w.inner, lookups);
      if resolved.Some? { EnsureIn(env, first.w, resolved.value, programs); }
    case _ =>
  }

  // ----- one call -----------------------------------------------------------------------------

  function CountIn(keys: seq<Addr>, programs: set<Addr>): nat {
    if keys == [] then 0
    else CountIn(keys[..|keys| - 1], programs) + if keys[|keys| - 1] in programs then 1 else 0
  }

  /** The keys fit in one batch; or they are distinct and the programs among them fit in one. */
  predicate Fits(keys: seq<Addr>, programs: set<Addr>) {
    |keys| <= BATCH || (Distinct(keys) && CountIn(keys, programs) <= BATCH)
  }

  lemma {:induction false} WantedCount(env: Env, inner: Accounts, seen: set<Addr>, keys: seq<Addr>, programs: set<Addr>)
    ensures CountIn(Wanted(env, inner, seen, keys).1, programs) <= CountIn(keys, programs)
  {
    if keys != [] {
      var n := |keys| - 1;
      WantedCount(env, inner, seen, keys[..n], programs);
      var front := Wanted(env, inner, seen, keys[..n]).1;
      assert (front + [keys[n]])[..|front|] == front;
    }
  }

  lemma {:induction false} FollowupCount(env: Env, inner: Accounts, seen: set<Addr>, keys: seq<Addr>, out: seq<Option<Acct>>, programs: set<Addr>)
    requires |keys| == |out| && FoundIn(env, keys, out, programs)
    ensures |Sift(env, inner, seen, keys, out).followups| <= CountIn(keys, programs)
  {
    hide ProgramdataAddress;
    if keys != [] {
      var n := |keys| - 1;
      FollowupCount(env, inner, seen, keys[..n], out[..n], programs);
      assert Program(env, out[n]) ==> keys[n] in programs;
    }
  }

  lemma FitsEnsure(env: Env, w: World, keys: seq<Addr>, programs: set<Addr>)
    requires Fits(keys, programs) && StoredIn(env, w.store, programs) && AnsweredIn(env, programs)
    ensures CleanEnsure(env, w, keys)
  {
    hide CleanFetch, CleanEnsure, Wanted, Fetch, Sift, Distinct, StoredIn, AnsweredIn, FoundIn;
    if |keys| <= BATCH {
      SmallEnsure(env, w, keys);
    } else {
      var (seen, wanted) := Wanted(env, w.inner, w.seen, keys);
      var w1 := w.(seen := seen);
      WantedCount(env, w.inner, w.seen, keys, programs);
      FetchIn(env, w1, wanted, programs);
      var first := Fetch(env, w1, wanted);
      if first.Got? { FollowupCount(env, w.inner, seen, wanted, first.out, programs); }
      DistinctEnsure(env, w, keys);
    }
  }

  // ----- sessions -----------------------------------------------------------------------------

  /** So for the keys of an operation and for the addresses its tables resolve to. */
  predicate OpFits(env: Env, w: World, op: Op, programs: set<Addr>) {
    match op
    case Touch(keys) => Fits(keys, programs)
    case Message(keys, lookups) =>
      && Fits(keys + Tables(lookups), programs)
      && var resolved := Resolve(env, EnsurePresent(env, w, keys + Tables(lookups)).w.inner, lookups);
         resolved.Some? ==> Fits(resolved.value, programs)
    case _ => true
  }

  /** So for every operation of a session, in the state it finds. */
  predicate RunFits(env: Env, w: World, ops: seq<Op>, programs: set<Addr>) {
    ops == [] ||
    (var n := |ops| - 1;
     && RunFits(env, w, ops[..n], programs)
     && (Run(env, w, ops[..n]).Some? ==> OpFits(env, Run(env, w, ops[..n]).value, ops[n], programs)))
  }

  lemma FitsExec(env: Env, w: World, op: Op, programs: set<Addr>)
    requires OpFits(env, w, op, programs) && StoredIn(env, w.store, programs) && AnsweredIn(env, programs)
    ensures CleanExec(env, w, op)
  {
    hide CleanEnsure, EnsurePresent, Resolve, StoredIn, AnsweredIn, Fits;
    match op
    case Touch(keys) => FitsEnsure(env, w, keys, programs);
    case Message(keys, lookups) =>
      FitsEnsure(env, w, keys + Tables(lookups), programs);
      EnsureIn(env, w, keys + Tables(lookups), programs);
      var first := EnsurePresent(env, w, keys + Tables(lookups));
      var resolved := Resolve(env, first.w.inner, lookups);
      if resolved.Some? { FitsEnsure(env, first.w, resolved.value, programs); }
    case _ =>
  }

  lemma {:induction false} FitsRun(env: Env, w: World, ops: seq<Op>, programs: set<Addr>)
    requires RunFits(env, w, ops, programs) && StoredIn(env, w.store, programs) && AnsweredIn(env, programs)
    ensures CleanRun(env, w, ops)
    ensures Run(env, w, ops).Some? ==> StoredIn(env, Run(env, w, ops).value.store, programs)
  {
    hide CleanExec, Exec, OpFits, StoredIn, AnsweredIn;
    if ops != [] {
      var n := |ops| - 1;
      FitsRun(env, w, ops[..n], programs);
      var before := Run(env, w, ops[..n]);
      if before.Some? {
        FitsExec(env, before.value, ops[n], programs);
        ExecIn(env, before.value, ops[n], programs);
      }
    }
  }

  /** A session that succeeded online replays offline state for state, whatever the endpoint answered
      and however the chain moved, if each of its operations asks for distinct keys, however many,
      with at most one batch of upgradeable programs among them, or for one batch of any keys. */
  lemma LargeReplay(env: Env, w: World, ops: seq<Op>, programs: set<Addr>, store: map<Addr, Option<Acct>>, k: nat)
    requires env.rpc.Online? && Run(env, w, ops).Some? && RunFits(env, w, ops, programs)
    requires StoredIn(env, w.store, programs) && AnsweredIn(env, programs)
    requires Within(Run(env, w, ops).value.store, store) && k <= |ops|
    ensures Run(env, w, ops[..k]).Some?
    ensures Run(Off(env), Over(w, store), ops[..k]) == Some(Over(Run(env, w, ops[..k]).value, store))
  {
    hide Run, CleanRun, RunFits, Within, StoredIn, AnsweredIn;
    FitsRun(env, w, ops, programs);
    OfflineReplay(env, w, ops, store, k);
  }
}
