/** What every hydration call keeps, on success and on failure, and what holds over sessions. */
module HydrationSafety {
  import opened Wrappers
  import opened Hydration
  import opened HydrationTheorems

  // ----- what a call decides to write ---------------------------------------------------------

  /** A fetched candidate that is to be written: present and not owned by an excluded program. */
  predicate Kept(env: Env, fetched: Option<Acct>) {
    fetched.Some? && fetched.value.owner !in env.excludePrograms
  }

  /** The programdata account an upgradeable program points at. */
  function Target(env: Env, acc: Acct): Option<Addr> {
    if acc.executable && acc.owner == env.loader then ProgramdataAddress(acc.data) else None
  }

  /** `k` was asked for and answered with `acc`, which is to be written. */
  ghost predicate Candidate(env: Env, keys: seq<Addr>, out: seq<Option<Acct>>, k: Addr, acc: Acct)
    requires |keys| == |out|
  {
    exists i :: 0 <= i < |keys| && Kept(env, out[i]) && keys[i] == k && out[i].value == acc
  }

  /** Some program to be written points at `pd`, which had not been asked for up to that program. */
  ghost predicate Pointed(env: Env, keys: seq<Addr>, out: seq<Option<Acct>>, pd: Addr)
    requires |keys| == |out|
  {
    exists i :: 0 <= i < |keys| && Kept(env, out[i]) && Target(env, out[i].value) == Some(pd) && pd !in keys[..i + 1]
  }

  lemma CandidateSnoc(env: Env, keys: seq<Addr>, out: seq<Option<Acct>>, k: Addr, acc: Acct)
    requires |keys| == |out| > 0
    ensures var n := |keys| - 1;
            Candidate(env, keys, out, k, acc) <==>
            Candidate(env, keys[..n], out[..n], k, acc) || (Kept(env, out[n]) && keys[n] == k && out[n].value == acc)
  {
    var n := |keys| - 1;
    assert forall i :: 0 <= i < n ==> keys[..n][i] == keys[i] && out[..n][i] == out[i];
  }

  lemma PointedSnoc(env: Env, keys: seq<Addr>, out: seq<Option<Acct>>, pd: Addr)
    requires |keys| == |out| > 0
    ensures var n := |keys| - 1;
            Pointed(env, keys, out, pd) <==>
            Pointed(env, keys[..n], out[..n], pd) || (Kept(env, out[n]) && Target(env, out[n].value) == Some(pd) && pd !in keys)
  {
    hide Target;
    var n := |keys| - 1;
    assert keys[..n + 1] == keys;
    forall i | 0 <= i < n ensures out[..n][i] == out[i] && keys[..n][..i + 1] == keys[..i + 1] {}
  }

  /** The plan: everything asked for is seen; exactly the kept candidates are written; and exactly
      the programdata of such programs is followed up that was not seen, asked for up to the
      program, excluded or resident. */
  lemma {:induction false} SiftIs(env: Env, inner: Accounts, seen: set<Addr>, keys: seq<Addr>, out: seq<Option<Acct>>)
    requires |keys| == |out|
    ensures var p := Sift(env, inner, seen, keys, out);
            && (forall k :: k in p.seen <==> k in seen || k in keys)
            && (forall k, acc :: (k, acc) in p.inject <==> Candidate(env, keys, out, k, acc))
            && (forall pd :: pd in p.followups <==>
                  pd !in seen && pd !in env.excludeAddrs && pd !in inner && Pointed(env, keys, out, pd))
  {
    if keys != [] {
      hide ProgramdataAddress, Candidate, Pointed;
      var n := |keys| - 1;
      SiftIs(env, inner, seen, keys[..n], out[..n]);
      assert forall k :: k in keys <==> k in keys[..n] || k == keys[n];
      forall k, acc { CandidateSnoc(env, keys, out, k, acc); }
      forall pd { PointedSnoc(env, keys, out, pd); }
    }
  }

  lemma {:induction false} SupplementIs(p: Plan, keys: seq<Addr>, out: seq<Option<Acct>>)
    requires |keys| == |out|
    ensures var q := Supplement(p, keys, out);
            && (forall k :: k in q.seen <==> k in p.seen || k in keys)
            && (forall k, acc :: (k, acc) in q.inject <==>
                  (k, acc) in p.inject || exists i :: 0 <= i < |keys| && keys[i] == k && out[i] == Some(acc))
  {
    if keys != [] {
      var n := |keys| - 1;
      var front, before := keys[..n], out[..n];
      SupplementIs(p, front, before);
      assert forall i :: 0 <= i < n ==> front[i] == keys[i] && before[i] == out[i];
      assert forall k :: k in keys <==> k in front || k == keys[n];
      var q', q := Supplement(p, front, before), Supplement(p, keys, out);
      forall k, acc
        ensures (k, acc) in q.inject <==> (k, acc) in p.inject || exists i :: 0 <= i < |keys| && keys[i] == k && out[i] == Some(acc)
      {
        assert (k, acc) in q.inject <==> (k, acc) in q'.inject || (keys[n] == k && out[n] == Some(acc));
      }
    }
  }

  /** Every account on the list to write was neither seen nor resident nor an excluded address
      before the call, and is seen after it. Nothing is forgotten, and no address becomes seen
      without having been asked for or pointed at. */
  lemma PrepareIs(env: Env, w: World, keys: seq<Addr>)
    ensures var p := Prepare(env, w, keys);
            && w.seen <= p.w.seen
            && (p.Ready? ==> forall k, acc :: (k, acc) in p.inject ==>
                  k !in w.seen && k !in w.inner && k !in env.excludeAddrs && k in p.w.seen)
            && (!p.FirstRefused? ==> forall k :: k in keys ==> k in p.w.seen || k in w.inner)
            && (forall k :: k in keys && Excluded(env, k) ==> k in p.w.seen)
            && (p.FirstRefused? ==>
                  && (forall k :: k in p.w.seen ==> k in w.seen || (k in keys && Excluded(env, k)))
                  && Wanted(env, w.inner, w.seen, keys).1 != [])
  {
    hide Fetch, Sift, Supplement, Wanted, Candidate, Pointed;
    WantedIs(env, w.inner, w.seen, keys);
    var (seen, wanted) := Wanted(env, w.inner, w.seen, keys);
    if wanted != [] {
      var first := Fetch(env, w.(seen := seen), wanted);
      if first.Got? {
        var plan := Sift(env, w.inner, seen, wanted, first.out);
        SiftIs(env, w.inner, seen, wanted, first.out);
        PlanFresh(env, w.inner, w.seen, keys, seen, wanted, first.out);
        if plan.followups != [] {
          var second := Fetch(env, first.w.(seen := plan.seen), plan.followups);
          if second.Got? { FullFresh(env, w.inner, seen, plan, second.out); }
        }
      }
    }
  }

  /** Accounts to write are new, and seen. */
  ghost predicate Fresh(env: Env, inner: Accounts, seen: set<Addr>, p: Plan) {
    seen <= p.seen &&
    forall k, acc :: (k, acc) in p.inject ==> k !in seen && k !in inner && k !in env.excludeAddrs && k in p.seen
  }

  lemma WantedFresh(env: Env, inner: Accounts, before: set<Addr>, keys: seq<Addr>)
    ensures var (seen, wanted) := Wanted(env, inner, before, keys);
            forall k :: k in wanted ==> k !in seen && k !in inner && !Excluded(env, k)
  {
    hide Wanted, Excluded;
    WantedIs(env, inner, before, keys);
  }

  lemma PlanFresh(env: Env, inner: Accounts, before: set<Addr>, keys: seq<Addr>, seen: set<Addr>, wanted: seq<Addr>, out: seq<Option<Acct>>)
    requires Wanted(env, inner, before, keys) == (seen, wanted) && |wanted| == |out|
    ensures var plan := Sift(env, inner, seen, wanted, out);
            Fresh(env, inner, seen, plan) && forall k :: k in plan.followups ==> k !in seen && k !in inner && k !in env.excludeAddrs
  {
    hide Wanted, Sift, Candidate, Pointed;
    WantedFresh(env, inner, before, keys);
    SiftIs(env, inner, seen, wanted, out);
    CandidatesAsked(env, wanted, out);
  }

  lemma FullFresh(env: Env, inner: Accounts, seen: set<Addr>, plan: Plan, out: seq<Option<Acct>>)
    requires |plan.followups| == |out| && Fresh(env, inner, seen, plan)
    requires forall k :: k in plan.followups ==> k !in seen && k !in inner && k !in env.excludeAddrs
    ensures Fresh(env, inner, seen, Supplement(plan, plan.followups, out)) && plan.seen <= Supplement(plan, plan.followups, out).seen
  {
    hide Supplement;
    SupplementIs(plan, plan.followups, out);
  }

  lemma CandidatesAsked(env: Env, keys: seq<Addr>, out: seq<Option<Acct>>)
    requires |keys| == |out|
    ensures forall k, acc :: Candidate(env, keys, out, k, acc) ==> k in keys
  {
  }

  lemma {:induction false} InjectIs(env: Env, inner: Accounts, inject: seq<(Addr, Acct)>)
    ensures var (m, ok) := Inject(env, inner, inject);
            && (forall a :: a in inner ==> a in m)
            && (forall a :: a in m ==> (a in inner && m[a] == inner[a]) || (a, m[a]) in inject)
            && (forall a :: a in inner && (forall acc :: (a, acc) !in inject) ==> m[a] == inner[a])
            && (ok ==> forall k, acc :: (k, acc) in inject ==> k in m)
  {
    if inject != [] {
      var n := |inject| - 1;
      InjectIs(env, inner, inject[..n]);
      assert forall x :: x in inject <==> x in inject[..n] || x == inject[n];
    }
  }

  lemma OrderedSame(inject: seq<(Addr, Acct)>)
    ensures forall x :: x in Ordered(inject) <==> x in inject
  {
    var a, b := Select(inject, false), Select(inject, true);
    forall x ensures x in Ordered(inject) <==> x in inject {
      if x in Ordered(inject) {
        var i :| 0 <= i < |a + b| && (a + b)[i] == x;
        assert i < |a| ==> a[i] == x;
        assert i >= |a| ==> b[i - |a|] == x;
      }
    }
  }

  /** Whatever happens in a call: resolved addresses stay resolved, resident accounts are never
      overwritten or removed, and an account appears only where none was, at an address that was
      not resolved before, is now, and is none of the excluded addresses. */
  lemma EnsureSafe(env: Env, w: World, keys: seq<Addr>)
    ensures var r := EnsurePresent(env, w, keys);
            && w.seen <= r.w.seen
            && (forall a :: a in w.inner ==> a in r.w.inner && r.w.inner[a] == w.inner[a])
            && (forall a :: a in r.w.inner && a !in w.inner ==> a in r.w.seen && a !in w.seen && a !in env.excludeAddrs)
  {
    hide Prepare, Inject, Ordered;
    PrepareIs(env, w, keys);
    var p := Prepare(env, w, keys);
    if p.Ready? {
      OrderedSame(p.inject);
      InjectIs(env, w.inner, Ordered(p.inject));
    }
  }

  /** A successful call leaves every key resolved or resident, so that repeating it changes
      nothing and fetches nothing. */
  lemma EnsureSettles(env: Env, w: World, keys: seq<Addr>)
    requires EnsurePresent(env, w, keys).ok
    ensures var r := EnsurePresent(env, w, keys).w;
            && (forall k :: k in keys ==> k in r.seen || k in r.inner)
            && Prepare(env, r, keys) == Nothing(r) && EnsurePresent(env, r, keys) == Outcome(r, true)
  {
    EnsureSafe(env, w, keys);
    PrepareIs(env, w, keys);
    Settled(env, EnsurePresent(env, w, keys).w, keys);
  }

  lemma NoMembers<T>(s: seq<T>)
    ensures (forall x :: x !in s) ==> s == []
  {
    assert s == [] || s[0] in s;
  }

  lemma Settled(env: Env, w: World, keys: seq<Addr>)
    requires forall k :: k in keys ==> k in w.seen || k in w.inner
    requires forall k :: k in keys && Excluded(env, k) ==> k in w.seen
    ensures Prepare(env, w, keys) == Nothing(w) && EnsurePresent(env, w, keys) == Outcome(w, true)
  {
    WantedIs(env, w.inner, w.seen, keys);
    var (seen, wanted) := Wanted(env, w.inner, w.seen, keys);
    assert seen == w.seen;
    NoMembers(wanted);
  }

  // ----- order of writing -----------------------------------------------------------------------

  /** Reordering loses and duplicates nothing. */
  lemma {:induction false} OrderedPermutes(inject: seq<(Addr, Acct)>)
    ensures multiset(Ordered(inject)) == multiset(inject)
  {
    if inject != [] {
      var n := |inject| - 1;
      OrderedPermutes(inject[..n]);
      assert inject == inject[..n] + [inject[n]];
      SelectSnoc(inject, false);
      SelectSnoc(inject, true);
    }
  }

  /** How many of the first `n` accounts are executable, or not. */
  function CountOf(inject: seq<(Addr, Acct)>, executable: bool, n: nat): nat
    requires n <= |inject|
  {
    if n == 0 then 0 else CountOf(inject, executable, n - 1) + if inject[n - 1].1.executable == executable then 1 else 0
  }

  lemma {:induction false} CountPrefix(inject: seq<(Addr, Acct)>, executable: bool, m: nat, n: nat)
    requires n <= m <= |inject|
    ensures CountOf(inject[..m], executable, n) == CountOf(inject, executable, n)
  {
    if n > 0 { CountPrefix(inject, executable, m, n - 1); }
  }

  lemma {:induction false} SelectAt(inject: seq<(Addr, Acct)>, executable: bool, i: nat)
    requires i < |inject| && inject[i].1.executable == executable
    ensures |Select(inject, executable)| == CountOf(inject, executable, |inject|)
    ensures CountOf(inject, executable, i) < |Select(inject, executable)|
    ensures Select(inject, executable)[CountOf(inject, executable, i)] == inject[i]
    decreases |inject|
  {
    var n := |inject| - 1;
    CountPrefix(inject, executable, n, i);
    SelectSize(inject, executable);
    SelectSize(inject[..n], executable);
    if i < n { SelectAt(inject[..n], executable, i); }
  }

  lemma {:induction false} SelectSize(inject: seq<(Addr, Acct)>, executable: bool)
    ensures |Select(inject, executable)| == CountOf(inject, executable, |inject|)
  {
    if inject != [] {
      var n := |inject| - 1;
      SelectSize(inject[..n], executable);
      CountPrefix(inject, executable, n, n);
    }
  }

  /** The reordering is stable: each account stands behind those of its kind that were before it, and an
      executable one behind all that are not. */
  lemma OrderedStable(inject: seq<(Addr, Acct)>, i: nat)
    requires i < |inject|
    ensures var e := inject[i].1.executable;
            var at := CountOf(inject, e, i) + if e then CountOf(inject, false, |inject|) else 0;
            at < |Ordered(inject)| && Ordered(inject)[at] == inject[i]
  {
    hide Select;
    SelectAt(inject, inject[i].1.executable, i);
    SelectSize(inject, false);
  }

  lemma SelectSnoc(inject: seq<(Addr, Acct)>, executable: bool)
    requires inject != []
    ensures var n := |inject| - 1;
            multiset(Select(inject, executable)) ==
            multiset(Select(inject[..n], executable)) + if inject[n].1.executable == executable then multiset{inject[n]} else multiset{}
  {
  }

  /** When an executable account is written, every data account of the call is already resident:
      in particular a program's programdata. */
  lemma DataBeforePrograms(env: Env, inner: Accounts, inject: seq<(Addr, Acct)>, i: nat, k: Addr, acc: Acct)
    requires i < |Ordered(inject)| && Ordered(inject)[i].1.executable
    requires Inject(env, inner, Ordered(inject)[..i]).1
    requires (k, acc) in inject && !acc.executable
    ensures k in Inject(env, inner, Ordered(inject)[..i]).0
  {
    hide Select, Inject;
    var a, b := Select(inject, false), Select(inject, true);
    var order := Ordered(inject);
    assert forall n :: 0 <= n < |a| ==> order[n] == a[n];
    assert |a| <= i;
    var j :| 0 <= j < |a| && a[j] == (k, acc);
    assert order[..i][j] == (k, acc);
    InjectIs(env, inner, order[..i]);
  }

  // ----- sessions -----------------------------------------------------------------------------

  /** A session that goes on after failures: the state after all of it. */
  function After(env: Env, w: World, ops: seq<Op>): World {
    if ops == [] then w else Exec(env, After(env, w, ops[..|ops| - 1]), ops[|ops| - 1]).w
  }

  /** The addresses the fork writes in one call of `ensure_present`. */
  ghost function Writes(env: Env, w: World, keys: seq<Addr>): set<Addr> {
    var p := Prepare(env, w, keys);
    if p.Ready? then set x | x in p.inject :: x.0 else {}
  }

  /** The addresses the fork writes in one operation. */
  ghost function Written(env: Env, w: World, op: Op): set<Addr> {
    match op
    case Touch(keys) => Writes(env, w, keys)
    case Message(keys, lookups) =>
      var first := EnsurePresent(env, w, keys + Tables(lookups));
      var resolved := Resolve(env, first.w.inner, lookups);
      Writes(env, w, keys + Tables(lookups)) +
      if first.ok && resolved.Some? && resolved.value != [] then Writes(env, first.w, resolved.value) else {}
    case _ => {}
  }

  lemma WritesFresh(env: Env, w: World, keys: seq<Addr>)
    ensures Writes(env, w, keys) !! w.seen && Writes(env, w, keys) <= EnsurePresent(env, w, keys).w.seen
    ensures w.seen <= EnsurePresent(env, w, keys).w.seen
  {
    hide Prepare, Inject;
    PrepareIs(env, w, keys);
  }

  /** What one operation writes was unresolved before and is resolved after. */
  lemma WrittenFresh(env: Env, w: World, op: Op)
    requires !op.Reset?
    ensures Written(env, w, op) !! w.seen && Written(env, w, op) <= Exec(env, w, op).w.seen
    ensures w.seen <= Exec(env, w, op).w.seen
  {
    hide EnsurePresent, Resolve, Writes;
    match op
    case Touch(keys) => WritesFresh(env, w, keys);
    case Message(keys, lookups) =>
      var all := keys + Tables(lookups);
      var first := EnsurePresent(env, w, all);
      WritesFresh(env, w, all);
      var resolved := Resolve(env, first.w.inner, lookups);
      if resolved.Some? { WritesFresh(env, first.w, resolved.value); }
    case _ =>
  }

  /** The two waves of one message write different addresses. */
  lemma WavesDisjoint(env: Env, w: World, keys: seq<Addr>, lookups: seq<TableLookup>)
    ensures var all := keys + Tables(lookups);
            var first := EnsurePresent(env, w, all);
            var resolved := Resolve(env, first.w.inner, lookups);
            resolved.Some? ==> Writes(env, w, all) !! Writes(env, first.w, resolved.value)
  {
    hide EnsurePresent, Resolve, Writes;
    var first := EnsurePresent(env, w, keys + Tables(lookups));
    WritesFresh(env, w, keys + Tables(lookups));
    var resolved := Resolve(env, first.w.inner, lookups);
    if resolved.Some? { WritesFresh(env, first.w, resolved.value); }
  }

  lemma {:induction false} SeenGrows(env: Env, w: World, ops: seq<Op>, i: nat)
    requires i <= |ops| && forall k :: i <= k < |ops| ==> !ops[k].Reset?
    ensures After(env, w, ops[..i]).seen <= After(env, w, ops).seen
    decreases ops
  {
    hide Exec;
    if i == |ops| {
      assert ops[..i] == ops;
    } else {
      var n := |ops| - 1;
      SeenGrows(env, w, ops[..n], i);
      assert ops[..n][..i] == ops[..i];
      WrittenFresh(env, After(env, w, ops[..n]), ops[n]);
    }
  }

  /** Between resets no address is written by the fork in two operations, whatever fails and
      whatever local changes happen in between. */
  lemma WrittenOnce(env: Env, w: World, ops: seq<Op>, i: nat, j: nat)
    requires i < j < |ops| && forall k :: i <= k <= j ==> !ops[k].Reset?
    ensures Written(env, After(env, w, ops[..i]), ops[i]) !! Written(env, After(env, w, ops[..j]), ops[j])
  {
    hide Exec, Written;
    var wi, wj := After(env, w, ops[..i]), After(env, w, ops[..j]);
    WrittenFresh(env, wi, ops[i]);
    WrittenFresh(env, wj, ops[j]);
    assert ops[..i + 1][..i] == ops[..i] && ops[..j][..i + 1] == ops[..i + 1];
    assert After(env, w, ops[..i + 1]) == Exec(env, wi, ops[i]).w;
    SeenGrows(env, w, ops[..j], i + 1);
  }
}
