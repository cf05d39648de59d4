/** Where hydration does not do what one would expect, and exactly when. */
module HydrationLimits {
  import opened Wrappers
  import opened Hydration
  import opened HydrationTheorems
  import opened HydrationSafety

  // ----- failed calls -------------------------------------------------------------------------

  /** A key that has to be asked for is not in the store, and the endpoint is not there or fails in
      one of the batches. */
  ghost predicate CutOff(env: Env, w: World, keys: seq<Addr>) {
    && (exists k :: k in keys && k !in w.seen && !Excluded(env, k) && k !in w.inner && k !in w.store)
    && (env.rpc.Online? ==> !AllUp(env.rpc, w.fetches, |Misses(w.store, Wanted(env, w.inner, w.seen, keys).1)|))
  }

  lemma CutOffIff(env: Env, w: World, keys: seq<Addr>)
    ensures CutOff(env, w, keys) <==> Prepare(env, w, keys).FirstRefused?
  {
    hide Misses, Wanted, Sift, Supplement, AllUp;
    var (seen, wanted) := Wanted(env, w.inner, w.seen, keys);
    WantedIs(env, w.inner, w.seen, keys);
    var misses := Misses(w.store, wanted);
    if misses != [] {
      assert wanted[misses[0]] in wanted;
    }
    if k :| k in wanted && k !in w.store {
      var i :| 0 <= i < |wanted| && wanted[i] == k;
      assert i in misses;
    }
  }

  /** A failed call is not undone. If its first fetch was cut off, no address but the excluded ones
      has become resolved and a retry asks again. In every other case the addresses asked for count
      as resolved although nothing, or not everything, was written, and a retry succeeds without
      fetching or writing anything. */
  lemma RetryAfterFailure(env: Env, w: World, keys: seq<Addr>)
    requires !EnsurePresent(env, w, keys).ok
    ensures var r := EnsurePresent(env, w, keys).w;
            && (EnsurePresent(env, r, keys) == Outcome(r, true) <==> !CutOff(env, w, keys))
            && (CutOff(env, w, keys) ==> forall k :: k in r.seen ==> k in w.seen || (k in keys && Excluded(env, k)))
  {
    hide Prepare, Inject, Ordered, Wanted, CutOff;
    CutOffIff(env, w, keys);
    EnsureSafe(env, w, keys);
    PrepareIs(env, w, keys);
    var p, r := Prepare(env, w, keys), EnsurePresent(env, w, keys).w;
    if p.FirstRefused? {
      WantedIs(env, w.inner, w.seen, keys);
      var k := Wanted(env, w.inner, w.seen, keys).1[0];
      assert k in Wanted(env, w.inner, w.seen, keys).1;
      Unsettled(env, r, keys, k);
    } else {
      Settled(env, r, keys);
    }
  }

  /** A call that changes nothing leaves no key open. */
  lemma Unsettled(env: Env, w: World, keys: seq<Addr>, k: Addr)
    requires k in keys && k !in w.seen && !Excluded(env, k) && k !in w.inner
    ensures EnsurePresent(env, w, keys) != Outcome(w, true)
  {
    hide Prepare, Inject, Ordered;
    EnsureSafe(env, w, keys);
    if EnsurePresent(env, w, keys).ok { EnsureSettles(env, w, keys); }
  }

  /** Offline, with a program in the store whose programdata is not: the call fails, the program
      counts as resolved without being there, and the retry reports success. */
  lemma SecondFetchFails(env: Env, w: World, p: Addr, d: Addr, prog: Acct)
    requires env.rpc.Offline? && p !in w.seen && p !in w.inner && !Excluded(env, p)
    requires p in w.store && w.store[p] == Some(prog) && prog.owner !in env.excludePrograms && Target(env, prog) == Some(d)
    requires d != p && d !in w.seen && d !in w.inner && d !in env.excludeAddrs && d !in w.store
    ensures var r := EnsurePresent(env, w, [p]);
            !r.ok && p !in r.w.inner && EnsurePresent(env, r.w, [p]) == Outcome(r.w, true)
  {
    hide Target, Wanted, Sift;
    OneWanted(env, w, p);
    OneFetched(env, w, p, prog);
    var plan := Sift(env, w.inner, w.seen, [p], [Some(prog)]);
    SiftIs(env, w.inner, w.seen, [p], [Some(prog)]);
    assert [p][..1] == [p] && Kept(env, [Some(prog)][0]) && Pointed(env, [p], [Some(prog)], d);
    assert d in plan.followups;
    assert w == w.(seen := w.seen);
    var i :| 0 <= i < |plan.followups| && plan.followups[i] == d;
    assert i in Misses(w.store, plan.followups);
    assert Prepare(env, w, [p]).SecondRefused?;
    NotCutOff(env, w, [p]);
    RetryAfterFailure(env, w, [p]);
  }

  lemma NotCutOff(env: Env, w: World, keys: seq<Addr>)
    requires !Prepare(env, w, keys).FirstRefused?
    ensures !CutOff(env, w, keys)
  {
    CutOffIff(env, w, keys);
  }

  /** An account that `set_account` refuses: the same. */
  lemma WriteFails(env: Env, w: World, k: Addr, acc: Acct)
    requires k !in w.seen && k !in w.inner && !Excluded(env, k) && k in w.store && w.store[k] == Some(acc)
    requires acc.owner !in env.excludePrograms && Target(env, acc) == None && !env.admits(w.inner, k, acc)
    ensures var r := EnsurePresent(env, w, [k]);
            !r.ok && k !in r.w.inner && EnsurePresent(env, r.w, [k]) == Outcome(r.w, true)
  {
    hide Target, Wanted, Fetch, Sift, Ordered;
    OneWanted(env, w, k);
    OneFetched(env, w, k, acc);
    assert w == w.(seen := w.seen);
    LoneSift(env, w, k, acc);
    LoneOrder(k, acc);
    assert [(k, acc)][..0] == [] && Inject(env, w.inner, []) == (w.inner, true);
    assert Inject(env, w.inner, [(k, acc)]) == (w.inner, false);
    NotCutOff(env, w, [k]);
    RetryAfterFailure(env, w, [k]);
  }

  lemma LoneSift(env: Env, w: World, k: Addr, acc: Acct)
    requires acc.owner !in env.excludePrograms && Target(env, acc) == None
    ensures Sift(env, w.inner, w.seen, [k], [Some(acc)]) == Plan(w.seen + {k}, [(k, acc)], [])
  {
    assert [k][..0] == [] && [Some(acc)][..0] == [];
  }

  lemma LoneOrder(k: Addr, acc: Acct)
    ensures Ordered([(k, acc)]) == [(k, acc)]
  {
    var none: seq<(Addr, Acct)>, one := [], [(k, acc)];
    assert one[..0] == none && none + one == one && one + none == one;
    assert Select(none, true) == none && Select(none, false) == none;
  }

  lemma OneWanted(env: Env, w: World, k: Addr)
    requires k !in w.seen && k !in w.inner && !Excluded(env, k)
    ensures Wanted(env, w.inner, w.seen, [k]) == (w.seen, [k])
  {
    var none: seq<Addr> := [];
    assert [k][..0] == none && none + [k] == [k];
    assert Wanted(env, w.inner, w.seen, none) == (w.seen, none);
  }

  // ----- excluded owners ----------------------------------------------------------------------

  /** What a call fetches, once its first fetch has gone through. */
  ghost function FirstPlan(env: Env, w: World, keys: seq<Addr>): Plan
    requires Prepare(env, w, keys).Ready?
  {
    var (seen, wanted) := Wanted(env, w.inner, w.seen, keys);
    Sift(env, w.inner, seen, wanted, Fetch(env, w.(seen := seen), wanted).out)
  }

  /** The second fetch answered `acc` for the followed-up address `k`. */
  ghost predicate FollowedUp(env: Env, w: World, keys: seq<Addr>, k: Addr, acc: Acct)
    requires Prepare(env, w, keys).Ready?
  {
    var (seen, wanted) := Wanted(env, w.inner, w.seen, keys);
    var first := Fetch(env, w.(seen := seen), wanted);
    var plan := FirstPlan(env, w, keys);
    plan.followups != [] &&
    var second := Fetch(env, first.w.(seen := plan.seen), plan.followups);
    second.Got? && exists i :: 0 <= i < |plan.followups| && plan.followups[i] == k && second.out[i] == Some(acc)
  }

  /** An account with an excluded owner, or at the address of an excluded program, is on the list to
      write if and only if it was fetched as the programdata of a program on the list, which had not
      been asked for up to that program: such accounts are only checked against the excluded
      addresses. */
  lemma ExcludedWrittenIff(env: Env, w: World, keys: seq<Addr>, k: Addr, acc: Acct)
    requires Prepare(env, w, keys).Ready? && (acc.owner in env.excludePrograms || k in env.excludePrograms)
    ensures var (seen, wanted) := Wanted(env, w.inner, w.seen, keys);
            var out := Fetch(env, w.(seen := seen), wanted).out;
            && ((k, acc) in Prepare(env, w, keys).inject <==> FollowedUp(env, w, keys, k, acc))
            && (k in FirstPlan(env, w, keys).followups <==>
                  k !in seen && k !in env.excludeAddrs && k !in w.inner && Pointed(env, wanted, out, k))
  {
    hide Fetch, Sift, Supplement, Wanted, Target;
    var (seen, wanted) := Wanted(env, w.inner, w.seen, keys);
    var first := Fetch(env, w.(seen := seen), wanted);
    var plan := Sift(env, w.inner, seen, wanted, first.out);
    SiftIs(env, w.inner, seen, wanted, first.out);
    WantedIs(env, w.inner, w.seen, keys);
    CandidatesAsked(env, wanted, first.out);
    assert !Candidate(env, wanted, first.out, k, acc);
    if plan.followups != [] {
      SupplementIs(plan, plan.followups, Fetch(env, first.w.(seen := plan.seen), plan.followups).out);
    }
  }

  /** A stored program names the address of an excluded program as its programdata: that address is
      written. */
  lemma ExcludedProgramWritten(env: Env, w: World, p: Addr, x: Addr, prog: Acct, acc: Acct)
    requires p !in w.seen && p !in w.inner && !Excluded(env, p) && p in w.store && w.store[p] == Some(prog)
    requires prog.owner !in env.excludePrograms && Target(env, prog) == Some(x) && x != p
    requires x in env.excludePrograms && x !in env.excludeAddrs && x !in w.seen && x !in w.inner
    requires x in w.store && w.store[x] == Some(acc) && forall m, a, y :: env.admits(m, a, y)
    ensures var r := EnsurePresent(env, w, [p]); r.ok && x in r.w.inner && x !in w.inner
  {
    hide Target, Wanted, Fetch, Sift, Supplement, Inject, Ordered;
    OneWanted(env, w, p);
    OneFetched(env, w, p, prog);
    assert w == w.(seen := w.seen);
    LoneProgram(env, w, p, x, prog);
    var plan := Plan(w.seen + {p}, [(p, prog)], [x]);
    OneFetched(env, w.(seen := plan.seen), x, acc);
    SupplementIs(plan, [x], [Some(acc)]);
    var list := Supplement(plan, [x], [Some(acc)]).inject;
    assert [x][0] == x && [Some(acc)][0] == Some(acc) && (x, acc) in list;
    OrderedSame(list);
    AllAdmitted(env, w.inner, Ordered(list));
    InjectIs(env, w.inner, Ordered(list));
  }

  lemma LoneProgram(env: Env, w: World, p: Addr, x: Addr, prog: Acct)
    requires prog.owner !in env.excludePrograms && Target(env, prog) == Some(x) && x != p
    requires x !in env.excludeAddrs && x !in w.seen && x !in w.inner
    ensures Sift(env, w.inner, w.seen, [p], [Some(prog)]) == Plan(w.seen + {p}, [(p, prog)], [x])
  {
    hide ProgramdataAddress;
    assert [p][..0] == [] && [Some(prog)][..0] == [];
  }

  // ----- deleted accounts ---------------------------------------------------------------------

  /** An account that is not resident, because it never was or because it was deleted locally, is
      asked for exactly if its key is among those touched, was not resolved before and is not
      excluded. So an account the fork once wrote stays deleted, and one that was only set locally
      is fetched from the chain. */
  lemma DeletedAskedIff(env: Env, w: World, keys: seq<Addr>, k: Addr)
    ensures k in Wanted(env, w.inner - {k}, w.seen, keys).1 <==> k in keys && k !in w.seen && !Excluded(env, k)
  {
    WantedIs(env, w.inner - {k}, w.seen, keys);
  }

  /** And then it is there again, if the chain has it and its owner is not excluded. */
  lemma DeletedComesBackIff(env: Env, w: World, k: Addr, acc: Acct)
    requires k !in w.inner && k in w.store && w.store[k] == Some(acc) && acc.owner !in env.excludePrograms
    requires EnsurePresent(env, w, [k]).ok
    ensures k in EnsurePresent(env, w, [k]).w.inner <==> k !in w.seen && !Excluded(env, k)
  {
    hide Wanted, Fetch, Sift, Supplement, Inject, Ordered;
    if Unknown(env, w, k) {
      OneWanted(env, w, k);
      OneFetched(env, w, k, acc);
      assert w == w.(seen := w.seen);
      var plan := Sift(env, w.inner, w.seen, [k], [Some(acc)]);
      SiftIs(env, w.inner, w.seen, [k], [Some(acc)]);
      assert [k][0] == k && [Some(acc)][0] == Some(acc) && Candidate(env, [k], [Some(acc)], k, acc);
      var p := Prepare(env, w, [k]);
      if plan.followups != [] {
        SupplementIs(plan, plan.followups, Fetch(env, w.(seen := plan.seen), plan.followups).out);
      }
      assert (k, acc) in p.inject;
      OrderedSame(p.inject);
      InjectIs(env, w.inner, Ordered(p.inject));
    } else {
      WantedIs(env, w.inner, w.seen, [k]);
      NoMembers(Wanted(env, w.inner, w.seen, [k]).1);
    }
  }

  // ----- the order of keys --------------------------------------------------------------------

  /** Keys `p` and `d` are both unknown and in the store. */
  predicate Untouched(env: Env, w: World, p: Addr, d: Addr, prog: Acct, data: Acct) {
    && p != d && p !in w.seen && d !in w.seen && p !in w.inner && d !in w.inner
    && !Excluded(env, p) && !Excluded(env, d)
    && p in w.store && w.store[p] == Some(prog) && d in w.store && w.store[d] == Some(data)
  }

  lemma BothFetched(env: Env, w: World, p: Addr, d: Addr, prog: Acct, data: Acct)
    requires Untouched(env, w, p, d, prog, data)
    ensures Wanted(env, w.inner, w.seen, [p, d]) == (w.seen, [p, d])
    ensures Fetch(env, w, [p, d]) == Got(w, [Some(prog), Some(data)])
  {
    hide Misses;
    var none: seq<Addr> := [];
    assert [p, d][..1] == [p] && [p][..0] == none && none + [p] == [p] && [p] + [d] == [p, d];
    assert Wanted(env, w.inner, w.seen, none) == (w.seen, none);
    assert Wanted(env, w.inner, w.seen, [p]) == (w.seen, [p]);
    NoMisses(w.store, [p, d]);
    assert Cached(w.store, [p, d]) == [Some(prog), Some(data)];
  }

  lemma OneFetched(env: Env, w: World, d: Addr, data: Acct)
    requires d in w.store && w.store[d] == Some(data)
    ensures Fetch(env, w, [d]) == Got(w, [Some(data)])
  {
    NoMisses(w.store, [d]);
    assert Cached(w.store, [d]) == [Some(data)];
  }

  /** The account at `d` belongs to an excluded program, yet the program at `p` names it as its
      programdata. Asked for in the order `p, d` it is written; in the order `d, p` it is not. */
  lemma ExcludedOwnerByOrder(env: Env, w: World, p: Addr, d: Addr, prog: Acct, data: Acct)
    requires Untouched(env, w, p, d, prog, data)
    requires prog.owner !in env.excludePrograms && Target(env, prog) == Some(d) && data.owner in env.excludePrograms
    ensures Prepare(env, w, [p, d]).Ready? && (d, data) in Prepare(env, w, [p, d]).inject
    ensures Prepare(env, w, [d, p]).Ready? && (d, data) !in Prepare(env, w, [d, p]).inject
  {
    hide Fetch, Wanted, Sift, Supplement, Target;
    BothFetched(env, w, p, d, prog, data);
    BothFetched(env, w, d, p, data, prog);
    SiftOrders(env, w, p, d, prog, data);
    var w2 := w.(seen := w.seen + {p} + {d});
    OneFetched(env, w2, d, data);
    assert w == w.(seen := w.seen);
    SupplementIs(Plan(w2.seen, [(p, prog)], [d]), [d], [Some(data)]);
    assert [d][0] == d && [Some(data)][0] == Some(data);
  }

  lemma SiftOrders(env: Env, w: World, p: Addr, d: Addr, prog: Acct, data: Acct)
    requires Untouched(env, w, p, d, prog, data)
    requires prog.owner !in env.excludePrograms && Target(env, prog) == Some(d) && data.owner in env.excludePrograms
    ensures Sift(env, w.inner, w.seen, [p, d], [Some(prog), Some(data)]) == Plan(w.seen + {p} + {d}, [(p, prog)], [d])
    ensures Sift(env, w.inner, w.seen, [d, p], [Some(data), Some(prog)]) == Plan(w.seen + {d} + {p}, [(p, prog)], [])
  {
    hide ProgramdataAddress, Sift;
    var none := Plan(w.seen, [], []);
    SiftTwo(env, w.inner, w.seen, p, Some(prog), d, Some(data));
    SiftTwo(env, w.inner, w.seen, d, Some(data), p, Some(prog));
    assert SiftOne(env, w.inner, none, p, Some(prog)) == Plan(w.seen + {p}, [(p, prog)], [d]);
    assert SiftOne(env, w.inner, none, d, Some(data)) == Plan(w.seen + {d}, [], []);
  }

  lemma SiftTwo(env: Env, inner: Accounts, seen: set<Addr>, a: Addr, x: Option<Acct>, b: Addr, y: Option<Acct>)
    ensures Sift(env, inner, seen, [a, b], [x, y]) == SiftOne(env, inner, SiftOne(env, inner, Plan(seen, [], []), a, x), b, y)
  {
    hide SiftOne;
    assert [a, b][..1] == [a] && [x, y][..1] == [x] && [a][..0] == [] && [x][..0] == [];
    assert Sift(env, inner, seen, [a], [x]) == SiftOne(env, inner, Plan(seen, [], []), a, x);
  }

  // ----- a session that does not replay -------------------------------------------------------

  function Copies(k: Addr, n: nat): (r: seq<Addr>)
    ensures |r| == n && forall i :: 0 <= i < n ==> r[i] == k
  {
    seq(n, _ => k)
  }

  predicate Unknown(env: Env, w: World, k: Addr) {
    k !in w.seen && k !in w.inner && !Excluded(env, k)
  }

  lemma {:induction false} CopiesWanted(env: Env, w: World, k: Addr, n: nat)
    requires Unknown(env, w, k)
    ensures Wanted(env, w.inner, w.seen, Copies(k, n)) == (w.seen, Copies(k, n))
  {
    if n > 0 {
      assert Copies(k, n)[..n - 1] == Copies(k, n - 1) && Copies(k, n - 1) + [k] == Copies(k, n);
      CopiesWanted(env, w, k, n - 1);
    }
  }

  lemma {:induction false} CopiesMissed(store: map<Addr, Option<Acct>>, k: Addr, n: nat)
    requires k !in store
    ensures var m := Misses(store, Copies(k, n)); |m| == n && forall i :: 0 <= i < n ==> m[i] == i
  {
    if n > 0 {
      assert Copies(k, n)[..n - 1] == Copies(k, n - 1);
      CopiesMissed(store, k, n - 1);
    }
  }

  lemma {:induction false} AllAdmitted(env: Env, inner: Accounts, list: seq<(Addr, Acct)>)
    requires forall m, a, x :: env.admits(m, a, x)
    ensures Inject(env, inner, list).1
  {
    if list != [] {
      var n := |list| - 1;
      AllAdmitted(env, inner, list[..n]);
      assert env.admits(Inject(env, inner, list[..n]).0, list[n].0, list[n].1);
    }
  }

  /** The endpoint has the account in the first batch and no longer in the second. */
  ghost predicate Vanishes(env: Env, t: nat, k: Addr, acc: Acct) {
    && env.rpc.Online? && env.rpc.up(t, 0) && env.rpc.up(t, 1)
    && env.rpc.answer(t, 0, k) == Some(acc) && env.rpc.answer(t, 1, k) == None
  }

  lemma VanishingAnswers(env: Env, t: nat, k: Addr, acc: Acct, keys: seq<Addr>, misses: seq<nat>)
    requires Vanishes(env, t, k, acc) && keys == Copies(k, BATCH + 1)
    requires |misses| == |keys| && forall i :: 0 <= i < |keys| ==> misses[i] == i
    ensures AllUp(env.rpc, t, |misses|)
    ensures forall i :: 0 <= i <= BATCH ==> Answers(env.rpc, t, keys, misses)[i] == if i < BATCH then Some(acc) else None
  {
    hide Answers;
    assert Batches(BATCH + 1) == 2;
    forall i | 0 <= i <= BATCH ensures i / BATCH == if i < BATCH then 0 else 1 {}
  }

  lemma TwoAnswers(env: Env, w: World, k: Addr, acc: Acct)
    requires env.rpc.Online? && Vanishes(env, w.fetches, k, acc) && k !in w.store
    ensures var r := Fetch(env, w, Copies(k, BATCH + 1));
            r.Got? && r.out[0] == Some(acc) && (forall i :: 0 <= i <= BATCH ==> r.out[i] == Some(acc) || r.out[i] == None)
            && k in r.w.store && r.w.store[k] == None
  {
    hide Misses, Cached, Record, Answers, AllUp, Vanishes;
    var keys := Copies(k, BATCH + 1);
    CopiesMissed(w.store, k, BATCH + 1);
    var misses, answers := Misses(w.store, keys), Answers(env.rpc, w.fetches, keys, Misses(w.store, keys));
    VanishingAnswers(env, w.fetches, k, acc, keys, misses);
    RecordIs(w.store, Cached(w.store, keys), keys, misses, answers);
    forall i | 0 <= i <= BATCH ensures Fetch(env, w, keys).out[i] == answers[i] { assert misses[i] == i; }
    LastRecorded(w.store, Cached(w.store, keys), keys, misses, answers);
  }

  lemma LastRecorded(store: map<Addr, Option<Acct>>, out: seq<Option<Acct>>, keys: seq<Addr>, misses: seq<nat>, answers: seq<Option<Acct>>)
    requires |out| == |keys| && |misses| == |answers| > 0 && forall m :: 0 <= m < |misses| ==> misses[m] < |keys|
    ensures var s, n := Record(store, out, keys, misses, answers).0, |misses| - 1;
            keys[misses[n]] in s && s[keys[misses[n]]] == answers[n]
  {
  }

  lemma OnlineWrites(env: Env, w: World, k: Addr, acc: Acct)
    requires Vanishes(env, w.fetches, k, acc) && Unknown(env, w, k) && k !in w.store
    requires acc.owner !in env.excludePrograms && !acc.executable && forall m, a, x :: env.admits(m, a, x)
    ensures var r := EnsurePresent(env, w, Copies(k, BATCH + 1));
            r.ok && k in r.w.inner && k in r.w.store && r.w.store[k] == None
  {
    hide Fetch, Wanted, Sift, Inject, Ordered;
    var keys := Copies(k, BATCH + 1);
    CopiesWanted(env, w, k, BATCH + 1);
    assert w == w.(seen := w.seen);
    TwoAnswers(env, w, k, acc);
    var first := Fetch(env, w, keys);
    var plan := Sift(env, w.inner, w.seen, keys, first.out);
    SiftIs(env, w.inner, w.seen, keys, first.out);
    NoMembers(plan.followups);
    assert Candidate(env, keys, first.out, k, acc) by { assert keys[0] == k; }
    assert (k, acc) in plan.inject;
    OrderedSame(plan.inject);
    AllAdmitted(env, w.inner, Ordered(plan.inject));
    InjectIs(env, w.inner, Ordered(plan.inject));
  }

  lemma OfflineLacks(env: Env, w: World, k: Addr)
    requires env.rpc.Offline? && Unknown(env, w, k) && k in w.store && w.store[k] == None
    ensures var r := EnsurePresent(env, w, Copies(k, BATCH + 1)); r.ok && r.w.inner == w.inner
  {
    hide Misses, Wanted, Sift;
    var keys := Copies(k, BATCH + 1);
    CopiesWanted(env, w, k, BATCH + 1);
    assert w == w.(seen := w.seen);
    NoMisses(w.store, keys);
    var plan := Sift(env, w.inner, w.seen, keys, Cached(w.store, keys));
    SiftIs(env, w.inner, w.seen, keys, Cached(w.store, keys));
    NoMembers(plan.followups);
    NoMembers(plan.inject);
  }

  /** One key asked for 101 times, so in two batches, and on chain in the first but gone in the
      second. Online it is written; the store keeps the last answer, and offline it is absent. */
  lemma ReplayFails(env: Env, w: World, k: Addr, acc: Acct)
    requires Vanishes(env, w.fetches, k, acc) && Unknown(env, w, k) && k !in w.store
    requires acc.owner !in env.excludePrograms && !acc.executable && forall m, a, x :: env.admits(m, a, x)
    ensures var ops := [Touch(Copies(k, BATCH + 1))];
            var r := Run(env, w, ops);
            && r.Some? && k in r.value.inner
            && var off := Run(Off(env), Over(w, r.value.store), ops);
               off.Some? && k !in off.value.inner
  {
    hide EnsurePresent;
    assert [Touch(Copies(k, BATCH + 1))][..0] == [];
    OnlineWrites(env, w, k, acc);
    OfflineLacks(Off(env), Over(w, EnsurePresent(env, w, Copies(k, BATCH + 1)).w.store), k);
  }
}
