/** Safety of single calls and whole sessions, and offline replay. */
module HydrationTheorems {
  import opened Wrappers
  import opened Hydration

  // ----- the first pass -----------------------------------------------------------------------

  lemma {:induction false} WantedIs(env: Env, inner: Accounts, seen: set<Addr>, keys: seq<Addr>)
    ensures var (s, c) := Wanted(env, inner, seen, keys);
            && (forall k :: k in s <==> k in seen || (k in keys && Excluded(env, k)))
            && forall k :: k in c <==> k in keys && k !in seen && !Excluded(env, k) && k !in inner
  {
    if keys != [] {
      var n := |keys| - 1;
      WantedIs(env, inner, seen, keys[..n]);
      assert forall k :: k in keys <==> k in keys[..n] || k == keys[n];
    }
  }

  // ----- fetch --------------------------------------------------------------------------------

  ghost predicate Within(a: map<Addr, Option<Acct>>, b: map<Addr, Option<Acct>>) {
    forall k :: k in a ==> k in b && b[k] == a[k]
  }

  /** Equal keys get equal answers. */
  ghost predicate Consistent(keys: seq<Addr>, misses: seq<nat>, answers: seq<Option<Acct>>)
    requires |misses| == |answers| && forall m :: 0 <= m < |misses| ==> misses[m] < |keys|
  {
    forall m, n :: 0 <= m < |misses| && 0 <= n < |misses| && keys[misses[m]] == keys[misses[n]] ==> answers[m] == answers[n]
  }

  lemma RecordSnoc(store: map<Addr, Option<Acct>>, out: seq<Option<Acct>>, keys: seq<Addr>, misses: seq<nat>, answers: seq<Option<Acct>>)
    requires |out| == |keys| && 0 < |misses| == |answers| && forall m :: 0 <= m < |misses| ==> misses[m] < |keys|
    ensures var n := |misses| - 1;
            var (s, o) := Record(store, out, keys, misses[..n], answers[..n]);
            Record(store, out, keys, misses, answers) == (s[keys[misses[n]] := answers[n]], o[misses[n] := answers[n]])
  {
  }

  lemma {:induction false} RecordIs(store: map<Addr, Option<Acct>>, out: seq<Option<Acct>>, keys: seq<Addr>, misses: seq<nat>, answers: seq<Option<Acct>>)
    requires |out| == |keys| && |misses| == |answers|
    requires forall m :: 0 <= m < |misses| ==> misses[m] < |keys| && keys[misses[m]] !in store
    requires forall m, n :: 0 <= m < n < |misses| ==> misses[m] < misses[n]
    ensures var (s, o) := Record(store, out, keys, misses, answers);
            && Within(store, s)
            && (forall m :: 0 <= m < |misses| ==> o[misses[m]] == answers[m] && keys[misses[m]] in s)
            && (forall i :: 0 <= i < |keys| && i !in misses ==> o[i] == out[i])
    decreases misses
  {
    if misses != [] {
      var n := |misses| - 1;
      var front := misses[..n];
      RecordIs(store, out, keys, front, answers[..n]);
      hide Record;
      RecordSnoc(store, out, keys, misses, answers);
      assert forall m :: 0 <= m < n ==> front[m] == misses[m];
      assert forall i :: i in misses <==> i in front || i == misses[n];
    }
  }

  lemma {:induction false} RecordConsistent(store: map<Addr, Option<Acct>>, out: seq<Option<Acct>>, keys: seq<Addr>, misses: seq<nat>, answers: seq<Option<Acct>>)
    requires |out| == |keys| && |misses| == |answers| && forall m :: 0 <= m < |misses| ==> misses[m] < |keys|
    requires Consistent(keys, misses, answers)
    ensures var s := Record(store, out, keys, misses, answers).0;
            forall m :: 0 <= m < |misses| ==> keys[misses[m]] in s && s[keys[misses[m]]] == answers[m]
    decreases misses
  {
    if misses != [] {
      var n := |misses| - 1;
      var front, before := misses[..n], answers[..n];
      assert forall m :: 0 <= m < n ==> front[m] == misses[m] && before[m] == answers[m];
      RecordConsistent(store, out, keys, front, before);
    }
  }

  /** The store now says exactly what this fetch answered. */
  ghost predicate Recorded(r: Fetched, keys: seq<Addr>)
    requires r.Got? ==> |r.out| == |keys|
  {
    r.Got? ==> forall i :: 0 <= i < |keys| ==> keys[i] in r.w.store && r.w.store[keys[i]] == r.out[i]
  }

  /** A fetch never changes what the store said before; and what it answers is what the store will
      say from then on exactly when repeated keys were answered alike. */
  lemma FetchRecords(env: Env, w: World, keys: seq<Addr>)
    requires Fetch(env, w, keys).Got?
    ensures var r := Fetch(env, w, keys);
            && Within(w.store, r.w.store)
            && (forall i :: 0 <= i < |keys| && keys[i] in w.store ==> r.out[i] == w.store[keys[i]])
            && (Recorded(r, keys) <==>
                  (env.rpc.Online? ==>
                     Consistent(keys, Misses(w.store, keys), Answers(env.rpc, w.fetches, keys, Misses(w.store, keys)))))
  {
    hide Record, Misses;
    var misses, cached := Misses(w.store, keys), Cached(w.store, keys);
    if misses == [] {
      assert forall i :: 0 <= i < |keys| ==> keys[i] in w.store;
    } else {
      var answers := Answers(env.rpc, w.fetches, keys, misses);
      RecordIs(w.store, cached, keys, misses, answers);
      RecordIff(w.store, cached, keys, misses, answers);
      assert forall i :: 0 <= i < |keys| ==> (i in misses <==> keys[i] !in w.store);
    }
  }

  lemma RecordIff(store: map<Addr, Option<Acct>>, out: seq<Option<Acct>>, keys: seq<Addr>, misses: seq<nat>, answers: seq<Option<Acct>>)
    requires |out| == |keys| && |misses| == |answers|
    requires forall m :: 0 <= m < |misses| ==> misses[m] < |keys| && keys[misses[m]] !in store
    requires forall m, n :: 0 <= m < n < |misses| ==> misses[m] < misses[n]
    requires forall i :: 0 <= i < |keys| ==> (if i in misses then keys[i] !in store else keys[i] in store && out[i] == store[keys[i]])
    ensures var (s, o) := Record(store, out, keys, misses, answers);
            (forall i :: 0 <= i < |keys| ==> keys[i] in s && s[keys[i]] == o[i]) <==> Consistent(keys, misses, answers)
  {
    hide Record;
    RecordIs(store, out, keys, misses, answers);
    var (s, o) := Record(store, out, keys, misses, answers);
    if Consistent(keys, misses, answers) {
      RecordConsistent(store, out, keys, misses, answers);
      forall i | 0 <= i < |keys| ensures keys[i] in s && s[keys[i]] == o[i] {
        if i in misses { var m :| 0 <= m < |misses| && misses[m] == i; }
      }
    }
    if forall i :: 0 <= i < |keys| ==> keys[i] in s && s[keys[i]] == o[i] {
      forall m | 0 <= m < |misses| ensures s[keys[misses[m]]] == answers[m] { assert o[misses[m]] == answers[m]; }
    }
  }

  // ----- offline replay -----------------------------------------------------------------------

  /** Keys that this fetch had to ask for more than once were answered alike. */
  ghost predicate CleanFetch(env: Env, w: World, keys: seq<Addr>) {
    env.rpc.Online? ==> Consistent(keys, Misses(w.store, keys), Answers(env.rpc, w.fetches, keys, Misses(w.store, keys)))
  }

  /** So for the one or two fetches of a call. */
  ghost predicate CleanEnsure(env: Env, w: World, keys: seq<Addr>) {
    var (seen, wanted) := Wanted(env, w.inner, w.seen, keys);
    var w1 := w.(seen := seen);
    wanted != [] ==>
      && CleanFetch(env, w1, wanted)
      && var first := Fetch(env, w1, wanted);
         first.Got? ==>
           var plan := Sift(env, w.inner, seen, wanted, first.out);
           plan.followups != [] ==> CleanFetch(env, first.w.(seen := plan.seen), plan.followups)
  }

  /** So for every fetch a session really makes. */
  ghost predicate CleanExec(env: Env, w: World, op: Op) {
    match op
    case Touch(keys) => CleanEnsure(env, w, keys)
    case Message(keys, lookups) =>
      var first := EnsurePresent(env, w, keys + Tables(lookups));
      && CleanEnsure(env, w, keys + Tables(lookups))
      && var resolved := Resolve(env, first.w.inner, lookups);
         first.ok && resolved.Some? && resolved.value != [] ==> CleanEnsure(env, first.w, resolved.value)
    case _ => true
  }

  ghost predicate CleanRun(env: Env, w: World, ops: seq<Op>) {
    ops == [] ||
    (var n := |ops| - 1;
     && CleanRun(env, w, ops[..n])
     && (Run(env, w, ops[..n]).Some? ==> CleanExec(env, Run(env, w, ops[..n]).value, ops[n])))
  }

  /** A fetch needs no assumption about the chain if the keys it has to ask for are distinct, or fit
      in one batch, or if the batches of a fetch see the same chain. */
  lemma CleanWhen(env: Env, w: World, keys: seq<Addr>)
    requires var misses := Misses(w.store, keys);
             || (forall m, n :: 0 <= m < n < |misses| ==> keys[misses[m]] != keys[misses[n]])
             || |misses| <= BATCH
             || (env.rpc.Online? ==> forall b, c, k :: env.rpc.answer(w.fetches, b, k) == env.rpc.answer(w.fetches, c, k))
    ensures CleanFetch(env, w, keys)
  {
    hide Misses;
    var misses := Misses(w.store, keys);
    if env.rpc.Online? && |misses| <= BATCH {
      assert forall m :: 0 <= m < |misses| ==> m / BATCH == 0;
    }
  }

  function Off(env: Env): Env {
    env.(rpc := Offline)
  }

  /** The same accounts and resolved addresses, over another store. */
  function Over(w: World, store: map<Addr, Option<Acct>>): World {
    w.(store := store, fetches := 0)
  }

  lemma WithinTrans(a: map<Addr, Option<Acct>>, b: map<Addr, Option<Acct>>, c: map<Addr, Option<Acct>>)
    requires Within(a, b) && Within(b, c)
    ensures Within(a, c)
  {
  }

  lemma FetchKeeps(env: Env, w: World, keys: seq<Addr>)
    ensures Within(w.store, Fetch(env, w, keys).w.store)
  {
    if Fetch(env, w, keys).Got? { FetchRecords(env, w, keys); }
  }

  lemma {:induction false} NoMisses(store: map<Addr, Option<Acct>>, keys: seq<Addr>)
    requires forall i :: 0 <= i < |keys| ==> keys[i] in store
    ensures Misses(store, keys) == []
  {
    if keys != [] { NoMisses(store, keys[..|keys| - 1]); }
  }

  lemma FetchReplays(env: Env, w: World, keys: seq<Addr>, store: map<Addr, Option<Acct>>)
    requires env.rpc.Online? && CleanFetch(env, w, keys) && Fetch(env, w, keys).Got?
    requires Within(Fetch(env, w, keys).w.store, store)
    ensures Fetch(Off(env), Over(w, store), keys) == Got(Over(w, store), Fetch(env, w, keys).out)
  {
    hide Misses, Record;
    var r := Fetch(env, w, keys);
    FetchRecords(env, w, keys);
    assert Recorded(r, keys);
    assert forall i :: 0 <= i < |keys| ==> keys[i] in store && store[keys[i]] == r.out[i];
    NoMisses(store, keys);
    assert Cached(store, keys) == r.out;
  }

  /** From the very store a fetch left, the same fetch offline answers the same if and only if keys
      asked for more than once had been answered alike. */
  lemma FetchReplaysIff(env: Env, w: World, keys: seq<Addr>)
    requires env.rpc.Online? && Fetch(env, w, keys).Got?
    ensures var r := Fetch(env, w, keys);
            Fetch(Off(env), Over(w, r.w.store), keys) == Got(Over(w, r.w.store), r.out) <==> CleanFetch(env, w, keys)
  {
    hide Misses, Record;
    var r := Fetch(env, w, keys);
    FetchRecords(env, w, keys);
    RecordedKeys(env, w, keys);
    NoMisses(r.w.store, keys);
    assert Cached(r.w.store, keys) == r.out ==> Recorded(r, keys);
    if CleanFetch(env, w, keys) { FetchReplays(env, w, keys, r.w.store); }
  }

  lemma RecordedKeys(env: Env, w: World, keys: seq<Addr>)
    requires Fetch(env, w, keys).Got?
    ensures forall i :: 0 <= i < |keys| ==> keys[i] in Fetch(env, w, keys).w.store
  {
    hide Misses, Record;
    var misses := Misses(w.store, keys);
    if misses != [] {
      RecordIs(w.store, Cached(w.store, keys), keys, misses, Answers(env.rpc, w.fetches, keys, misses));
      forall i | 0 <= i < |keys| ensures keys[i] in Fetch(env, w, keys).w.store {
        if keys[i] !in w.store { var m :| 0 <= m < |misses| && misses[m] == i; }
      }
    }
  }

  lemma PrepareKeeps(env: Env, w: World, keys: seq<Addr>)
    ensures Within(w.store, Prepare(env, w, keys).w.store)
  {
    hide Fetch, Sift, Supplement;
    var (seen, wanted) := Wanted(env, w.inner, w.seen, keys);
    if wanted != [] {
      var first := Fetch(env, w.(seen := seen), wanted);
      FetchKeeps(env, w.(seen := seen), wanted);
      if first.Got? {
        var plan := Sift(env, w.inner, seen, wanted, first.out);
        FetchKeeps(env, first.w.(seen := plan.seen), plan.followups);
      }
    }
  }

  lemma SameSift(env: Env, inner: Accounts, seen: set<Addr>, keys: seq<Addr>, out: seq<Option<Acct>>)
    requires |keys| == |out|
    ensures Sift(Off(env), inner, seen, keys, out) == Sift(env, inner, seen, keys, out)
  {
  }

  lemma SameWanted(env: Env, inner: Accounts, seen: set<Addr>, keys: seq<Addr>)
    ensures Wanted(Off(env), inner, seen, keys) == Wanted(env, inner, seen, keys)
  {
  }

  lemma SameInject(env: Env, inner: Accounts, inject: seq<(Addr, Acct)>)
    ensures Inject(Off(env), inner, inject) == Inject(env, inner, inject)
  {
  }

  lemma SameResolve(env: Env, inner: Accounts, lookups: seq<TableLookup>)
    ensures Resolve(Off(env), inner, lookups) == Resolve(env, inner, lookups)
  {
  }

  lemma PrepareReplays(env: Env, w: World, keys: seq<Addr>, store: map<Addr, Option<Acct>>)
    requires env.rpc.Online? && CleanEnsure(env, w, keys)
    requires Within(Prepare(env, w, keys).w.store, store)
    ensures match Prepare(env, w, keys)
            case Nothing(w') => Prepare(Off(env), Over(w, store), keys) == Nothing(Over(w', store))
            case Ready(w', inject) => Prepare(Off(env), Over(w, store), keys) == Ready(Over(w', store), inject)
            case _ => true
  {
    hide Fetch, Sift, Supplement, Wanted, Within, CleanFetch;
    SameWanted(env, w.inner, w.seen, keys);
    var (seen, wanted) := Wanted(env, w.inner, w.seen, keys);
    if wanted != [] {
      var w1 := w.(seen := seen);
      var first := Fetch(env, w1, wanted);
      if first.Got? {
        var plan := Sift(env, w.inner, seen, wanted, first.out);
        SameSift(env, w.inner, seen, wanted, first.out);
        var w2 := first.w.(seen := plan.seen);
        var second := Fetch(env, w2, plan.followups);
        if plan.followups == [] {
          FetchReplays(env, w1, wanted, store);
        } else if second.Got? {
          FetchKeeps(env, w2, plan.followups);
          WithinTrans(first.w.store, second.w.store, store);
          FetchReplays(env, w1, wanted, store);
          FetchReplays(env, w2, plan.followups, store);
        }
      }
    }
  }

  lemma EnsureKeeps(env: Env, w: World, keys: seq<Addr>)
    ensures Within(w.store, EnsurePresent(env, w, keys).w.store)
  {
    PrepareKeeps(env, w, keys);
  }

  /** A call that succeeded online does the same offline, from any store that has what it left. */
  lemma EnsureReplays(env: Env, w: World, keys: seq<Addr>, store: map<Addr, Option<Acct>>)
    requires env.rpc.Online? && CleanEnsure(env, w, keys) && EnsurePresent(env, w, keys).ok
    requires Within(EnsurePresent(env, w, keys).w.store, store)
    ensures EnsurePresent(Off(env), Over(w, store), keys) == Outcome(Over(EnsurePresent(env, w, keys).w, store), true)
  {
    hide Prepare, Inject, Ordered, Within, CleanEnsure;
    PrepareReplays(env, w, keys, store);
    var p := Prepare(env, w, keys);
    if p.Ready? { SameInject(env, p.w.inner, Ordered(p.inject)); }
  }

  lemma MessageReplays(env: Env, w: World, keys: seq<Addr>, lookups: seq<TableLookup>, store: map<Addr, Option<Acct>>)
    requires env.rpc.Online? && CleanExec(env, w, Message(keys, lookups)) && HydrateMessage(env, w, keys, lookups).ok
    requires Within(HydrateMessage(env, w, keys, lookups).w.store, store)
    ensures HydrateMessage(Off(env), Over(w, store), keys, lookups)
            == Outcome(Over(HydrateMessage(env, w, keys, lookups).w, store), true)
  {
    hide EnsurePresent, Resolve, Within, CleanEnsure;
    var all := keys + Tables(lookups);
    var first := EnsurePresent(env, w, all);
    SameResolve(env, first.w.inner, lookups);
    var resolved := Resolve(env, first.w.inner, lookups);
    if resolved.value == [] {
      EnsureReplays(env, w, all, store);
    } else {
      EnsureKeeps(env, first.w, resolved.value);
      WithinTrans(first.w.store, EnsurePresent(env, first.w, resolved.value).w.store, store);
      EnsureReplays(env, w, all, store);
      EnsureReplays(env, first.w, resolved.value, store);
    }
  }

  lemma ExecKeeps(env: Env, w: World, op: Op)
    ensures Within(w.store, Exec(env, w, op).w.store)
  {
    match op
    case Touch(keys) => EnsureKeeps(env, w, keys);
    case Message(keys, lookups) =>
      var first := EnsurePresent(env, w, keys + Tables(lookups));
      EnsureKeeps(env, w, keys + Tables(lookups));
      var resolved := Resolve(env, first.w.inner, lookups);
      if resolved.Some? { EnsureKeeps(env, first.w, resolved.value); }
    case _ =>
  }

  lemma ExecReplays(env: Env, w: World, op: Op, store: map<Addr, Option<Acct>>)
    requires env.rpc.Online? && CleanExec(env, w, op) && Exec(env, w, op).ok && Within(Exec(env, w, op).w.store, store)
    ensures Exec(Off(env), Over(w, store), op) == Outcome(Over(Exec(env, w, op).w, store), true)
  {
    hide EnsurePresent, HydrateMessage, Within, CleanEnsure;
    match op
    case Touch(keys) => EnsureReplays(env, w, keys, store);
    case Message(keys, lookups) => MessageReplays(env, w, keys, lookups, store);
    case _ =>
  }

  /** Whatever session succeeded online, while the chain moved from batch to batch: if no fetch of
      it got two answers for one key, then run again offline from the recorded store it never
      misses, and after every operation the resident accounts and the resolved addresses are the
      same. */
  lemma {:induction false} OfflineReplay(env: Env, w: World, ops: seq<Op>, store: map<Addr, Option<Acct>>, k: nat)
    requires env.rpc.Online? && CleanRun(env, w, ops) && Run(env, w, ops).Some?
    requires Within(Run(env, w, ops).value.store, store) && k <= |ops|
    ensures Run(env, w, ops[..k]).Some?
    ensures Run(Off(env), Over(w, store), ops[..k]) == Some(Over(Run(env, w, ops[..k]).value, store))
    decreases ops
  {
    hide Exec, Within, CleanExec;
    if ops == [] {
      assert ops[..k] == ops;
    } else {
      var n := |ops| - 1;
      var front := ops[..n];
      var before := Run(env, w, front).value;
      ExecKeeps(env, before, ops[n]);
      WithinTrans(before.store, Run(env, w, ops).value.store, store);
      if k <= n {
        OfflineReplay(env, w, front, store, k);
        assert front[..k] == ops[..k];
      } else {
        OfflineReplay(env, w, front, store, n);
        assert front[..n] == front && ops[..k] == ops;
        ExecReplays(env, before, ops[n], store);
      }
    }
  }
}
