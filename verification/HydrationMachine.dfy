/** Hydration as it runs: resident accounts, the `seen` set and the store are updated in place. */
module HydrationMachine {
  import opened Wrappers
  import opened Hydration

  class Svm {
    const env: Env
    var inner: Accounts
    var seen: set<Addr>
    var store: map<Addr, Option<Acct>>
    var fetches: nat

    constructor (env: Env, inner: Accounts, store: map<Addr, Option<Acct>>)
      ensures this.env == env && Now() == World(inner, {}, store, 0)
    {
      this.env := env;
      this.inner, this.seen, this.store, this.fetches := inner, {}, store, 0;
    }

    ghost function Now(): World
      reads this
    {
      World(inner, seen, store, fetches)
    }

    /** Cached answers first, then the misses in batches; nothing is recorded unless every batch
        goes through. */
    method FetchAll(keys: seq<Addr>) returns (r: Option<seq<Option<Acct>>>)
      modifies this`store, this`fetches
      ensures var spec := Fetch(env, old(Now()), keys);
              Now() == spec.w && r == if spec.Got? then Some(spec.out) else None
    {
      hide Record, Misses;
      var out, misses := LookUp(keys);
      if misses == [] { return Some(out); }
      if env.rpc.Offline? { return None; }
      var answers := Ask(keys, misses);
      if answers.None? { return None; }
      out := RecordAll(keys, misses, answers.value, out);
      r := Some(out);
    }

    method LookUp(keys: seq<Addr>) returns (out: seq<Option<Acct>>, misses: seq<nat>)
      ensures misses == Misses(store, keys) && out == Cached(store, keys)
    {
      hide Misses;
      out, misses := [], [];
      NoKeys(store);
      assert keys[..0] == [];
      for i := 0 to |keys|
        invariant misses == Misses(store, keys[..i]) && out == Cached(store, keys[..i])
      {
        OneMoreKey(store, keys, i);
        if keys[i] in store {
          out := out + [store[keys[i]]];
        } else {
          out := out + [None];
          misses := misses + [i];
        }
      }
      assert keys[..|keys|] == keys;
    }

    method RecordAll(keys: seq<Addr>, misses: seq<nat>, answers: seq<Option<Acct>>, cached: seq<Option<Acct>>)
      returns (out: seq<Option<Acct>>)
      requires |cached| == |keys| && |misses| == |answers| && forall m :: 0 <= m < |misses| ==> misses[m] < |keys|
      modifies this`store
      ensures (store, out) == Record(old(store), cached, keys, misses, answers)
    {
      out := cached;
      for m := 0 to |misses|
        invariant |out| == |keys| && (store, out) == Record(old(store), cached, keys, misses[..m], answers[..m])
      {
        assert misses[..m + 1][..m] == misses[..m] && answers[..m + 1][..m] == answers[..m];
        store := store[keys[misses[m]] := answers[m]];
        out := out[misses[m] := answers[m]];
      }
      assert misses[..|misses|] == misses && answers[..|misses|] == answers;
    }

    method AskBatch(t: nat, b: nat, keys: seq<Addr>, misses: seq<nat>, start: nat, end: nat) returns (batch: seq<Option<Acct>>)
      requires env.rpc.Online? && forall m :: 0 <= m < |misses| ==> misses[m] < |keys|
      requires start == b * BATCH && start <= end <= start + BATCH && end <= |misses|
      ensures batch == Answers(env.rpc, t, keys, misses)[start..end]
    {
      hide Answers;
      batch := seq(end - start, (k: nat) requires k < end - start => env.rpc.answer(t, b, keys[misses[start + k]]));
      forall k: nat | k < end - start ensures batch[k] == Answers(env.rpc, t, keys, misses)[start + k] {
        assert (start + k) / BATCH == b;
      }
    }

    /** One RPC call per batch of at most 100 keys. */
    method Ask(keys: seq<Addr>, misses: seq<nat>) returns (r: Option<seq<Option<Acct>>>)
      requires env.rpc.Online? && misses != [] && forall m :: 0 <= m < |misses| ==> misses[m] < |keys|
      modifies this`fetches
      ensures fetches == old(fetches) + 1
      ensures r == if AllUp(env.rpc, old(fetches), |misses|) then Some(Answers(env.rpc, old(fetches), keys, misses)) else None
    {
      hide Answers, AllUp;
      var t := fetches;
      fetches := fetches + 1;
      var got: seq<Option<Acct>> := [];
      var b := 0;
      while b * BATCH < |misses|
        invariant fetches == t + 1
        invariant |got| == (if b * BATCH < |misses| then b * BATCH else |misses|)
        invariant got == Answers(env.rpc, t, keys, misses)[..|got|]
        invariant forall c :: 0 <= c < b ==> env.rpc.up(t, c)
        invariant b == 0 || (b - 1) * BATCH < |misses|
        decreases |misses| - b * BATCH
      {
        assert b < Batches(|misses|);
        if !env.rpc.up(t, b) {
          SomeDown(env.rpc, t, |misses|, b);
          return None;
        }
        var start := b * BATCH;
        var end := if start + BATCH < |misses| then start + BATCH else |misses|;
        var batch := AskBatch(t, b, keys, misses, start, end);
        got := got + batch;
        b := b + 1;
      }
      assert b == Batches(|misses|);
      NoneDown(env.rpc, t, |misses|);
      assert Answers(env.rpc, t, keys, misses)[..|misses|] == Answers(env.rpc, t, keys, misses);
      r := Some(got);
    }

    /** `ensure_present`. */
    method EnsureAll(keys: seq<Addr>) returns (ok: bool)
      modifies this
      ensures Outcome(Now(), ok) == EnsurePresent(env, old(Now()), keys)
    {
      hide Wanted, Fetch, Sift, Supplement, Ordered, Inject;
      var wanted := Want(keys);
      if wanted == [] { return true; }
      var fetched := FetchAll(wanted);
      if fetched.None? { return false; }
      var inject, followups := SiftAll(wanted, fetched.value);
      if followups != [] {
        var more := FetchAll(followups);
        if more.None? { return false; }
        inject := SupplementAll(inject, followups, more.value);
      }
      ok := Write(Ordered(inject));
    }

    /** The first pass over the keys. */
    method Want(keys: seq<Addr>) returns (wanted: seq<Addr>)
      modifies this`seen
      ensures (seen, wanted) == Wanted(env, inner, old(seen), keys)
    {
      wanted := [];
      for i := 0 to |keys|
        invariant (seen, wanted) == Wanted(env, inner, old(seen), keys[..i])
      {
        assert keys[..i + 1][..i] == keys[..i];
        var k := keys[i];
        if k !in seen {
          if Excluded(env, k) { seen := seen + {k}; }
          else if k !in inner { wanted := wanted + [k]; }
        }
      }
      assert keys[..|keys|] == keys;
    }

    method SupplementAll(list: seq<(Addr, Acct)>, keys: seq<Addr>, out: seq<Option<Acct>>) returns (inject: seq<(Addr, Acct)>)
      requires |keys| == |out|
      modifies this`seen
      ensures Plan(seen, inject, keys) == Supplement(Plan(old(seen), list, keys), keys, out)
    {
      inject := list;
      for i := 0 to |keys|
        invariant Plan(seen, inject, keys) == Supplement(Plan(old(seen), list, keys), keys[..i], out[..i])
      {
        assert keys[..i + 1][..i] == keys[..i] && out[..i + 1][..i] == out[..i];
        seen := seen + {keys[i]};
        if out[i].Some? { inject := inject + [(keys[i], out[i].value)]; }
      }
      assert keys[..|keys|] == keys && out[..|keys|] == out;
    }

    /** The second pass over the fetched candidates. */
    method SiftAll(keys: seq<Addr>, out: seq<Option<Acct>>) returns (inject: seq<(Addr, Acct)>, followups: seq<Addr>)
      requires |keys| == |out|
      modifies this`seen
      ensures Plan(seen, inject, followups) == Sift(env, inner, old(seen), keys, out)
    {
      inject, followups := [], [];
      for i := 0 to |keys|
        invariant Plan(seen, inject, followups) == Sift(env, inner, old(seen), keys[..i], out[..i])
      {
        assert keys[..i + 1][..i] == keys[..i] && out[..i + 1][..i] == out[..i];
        seen := seen + {keys[i]};
        if out[i].Some? && out[i].value.owner !in env.excludePrograms {
          var acc := out[i].value;
          if acc.executable && acc.owner == env.loader {
            var pd := ProgramdataAddress(acc.data);
            if pd.Some? && pd.value !in seen && pd.value !in env.excludeAddrs && pd.value !in inner {
              followups := followups + [pd.value];
            }
          }
          inject := inject + [(keys[i], acc)];
        }
      }
      assert keys[..|keys|] == keys && out[..|keys|] == out;
    }

    method Write(list: seq<(Addr, Acct)>) returns (ok: bool)
      modifies this`inner
      ensures (inner, ok) == Inject(env, old(inner), list)
    {
      for i := 0 to |list|
        invariant (inner, true) == Inject(env, old(inner), list[..i])
      {
        assert list[..i + 1][..i] == list[..i];
        if !env.admits(inner, list[i].0, list[i].1) {
          Stops(env, old(inner), list, i + 1);
          return false;
        }
        inner := inner[list[i].0 := list[i].1];
      }
      assert list[..|list|] == list;
      ok := true;
    }

    /** `hydrate_for_message`: two waves. */
    method HydrateForMessage(keys: seq<Addr>, lookups: seq<TableLookup>) returns (ok: bool)
      modifies this
      ensures Outcome(Now(), ok) == HydrateMessage(env, old(Now()), keys, lookups)
    {
      ok := EnsureAll(keys + Tables(lookups));
      if !ok { return; }
      var resolved: seq<Addr> := [];
      ghost var mid := Now();
      for i := 0 to |lookups|
        invariant Now() == mid
        invariant Resolve(env, inner, lookups[..i]) == Some(resolved)
      {
        assert lookups[..i + 1][..i] == lookups[..i];
        var l := lookups[i];
        if l.table in inner {
          var addrs := env.readTable(inner[l.table].data);
          if addrs.None? {
            Unresolved(env, inner, lookups, i + 1);
            return false;
          }
          var picked := PickAll(addrs.value, l.Indexes());
          resolved := resolved + picked;
        }
      }
      assert lookups[..|lookups|] == lookups;
      if resolved != [] { ok := EnsureAll(resolved); }
    }
  }

  /** The addresses at these indexes; one out of range is passed over. */
  method PickAll(addrs: seq<Addr>, indexes: seq<nat>) returns (picked: seq<Addr>)
    ensures picked == Pick(addrs, indexes)
  {
    picked := [];
    for n := 0 to |indexes|
      invariant picked == Pick(addrs, indexes[..n])
    {
      assert indexes[..n + 1][..n] == indexes[..n];
      if indexes[n] < |addrs| { picked := picked + [addrs[indexes[n]]]; }
    }
    assert indexes[..|indexes|] == indexes;
  }

  lemma NoKeys(store: map<Addr, Option<Acct>>)
    ensures Misses(store, []) == [] && Cached(store, []) == []
  {
  }

  lemma SomeDown(rpc: Rpc, t: nat, misses: nat, b: nat)
    requires rpc.Online? && b < Batches(misses) && !rpc.up(t, b)
    ensures !AllUp(rpc, t, misses)
  {
  }

  lemma NoneDown(rpc: Rpc, t: nat, misses: nat)
    requires rpc.Online? && forall b :: 0 <= b < Batches(misses) ==> rpc.up(t, b)
    ensures AllUp(rpc, t, misses)
  {
  }

  lemma OneMoreKey(store: map<Addr, Option<Acct>>, keys: seq<Addr>, i: nat)
    requires i < |keys|
    ensures Misses(store, keys[..i + 1]) == Misses(store, keys[..i]) + if keys[i] in store then [] else [i]
    ensures Cached(store, keys[..i + 1]) == Cached(store, keys[..i]) + [if keys[i] in store then store[keys[i]] else None]
  {
    hide Misses, Cached;
    OneMoreMiss(store, keys, i);
    var more := Cached(store, keys[..i + 1]);
    assert more[..i] == Cached(store, keys[..i]);
  }

  lemma OneMoreMiss(store: map<Addr, Option<Acct>>, keys: seq<Addr>, i: nat)
    requires i < |keys|
    ensures Misses(store, keys[..i + 1]) == Misses(store, keys[..i]) + if keys[i] in store then [] else [i]
  {
    assert keys[..i + 1][..i] == keys[..i];
  }

  /** Once refused, nothing more is written. */
  lemma {:induction false} Stops(env: Env, inner: Accounts, list: seq<(Addr, Acct)>, i: nat)
    requires i <= |list| && !Inject(env, inner, list[..i]).1
    ensures Inject(env, inner, list) == Inject(env, inner, list[..i])
    decreases list
  {
    if i == |list| {
      assert list[..i] == list;
    } else {
      var n := |list| - 1;
      assert list[..n][..i] == list[..i];
      Stops(env, inner, list[..n], i);
    }
  }

  lemma {:induction false} Unresolved(env: Env, inner: Accounts, lookups: seq<TableLookup>, i: nat)
    requires i <= |lookups| && Resolve(env, inner, lookups[..i]).None?
    ensures Resolve(env, inner, lookups).None?
    decreases lookups
  {
    if i == |lookups| {
      assert lookups[..i] == lookups;
    } else {
      var n := |lookups| - 1;
      assert lookups[..n][..i] == lookups[..i];
      Unresolved(env, inner, lookups[..n], i);
    }
  }
}
