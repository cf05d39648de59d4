/** What a message hydrates, said over its lookup tables; what the accounts then are; and what a reset
    forgets. */
module HydrationMessages {
  import opened Wrappers
  import opened Bytes
  import opened Hydration
  import opened HydrationTheorems
  import opened HydrationSafety

  // ----- the addresses a message names --------------------------------------------------------

  /** The `j`-th index of a lookup whose table is resident names this address. */
  predicate Names(env: Env, inner: Accounts, l: TableLookup, j: nat, a: Addr) {
    && l.table in inner && j < |l.writable + l.readonly|
    && var addrs := env.readTable(inner[l.table].data);
       addrs.Some? && var x := (l.writable + l.readonly)[j]; x < |addrs.value| && addrs.value[x] == a
  }

  /** Some address is named there. */
  predicate Naming(env: Env, inner: Accounts, l: TableLookup, j: nat) {
    && l.table in inner && j < |l.writable + l.readonly|
    && var addrs := env.readTable(inner[l.table].data);
       addrs.Some? && (l.writable + l.readonly)[j] < |addrs.value|
  }

  /** How many of the first `n` indexes of a lookup name an address. */
  function CountIn(env: Env, inner: Accounts, l: TableLookup, n: nat): nat {
    if n == 0 then 0 else CountIn(env, inner, l, n - 1) + if Naming(env, inner, l, n - 1) then 1 else 0
  }

  /** How many addresses the first `i` lookups name. */
  function CountBefore(env: Env, inner: Accounts, lookups: seq<TableLookup>, i: nat): nat
    requires i <= |lookups|
  {
    if i == 0 then 0
    else
      var l := lookups[i - 1];
      CountBefore(env, inner, lookups, i - 1) + CountIn(env, inner, l, |l.writable + l.readonly|)
  }

  /** `named` are exactly the addresses the lookups name, writable ones first, in order. */
  ghost predicate Listing(env: Env, inner: Accounts, lookups: seq<TableLookup>, named: seq<Addr>) {
    && |named| == CountBefore(env, inner, lookups, |lookups|)
    && forall i, j, a :: 0 <= i < |lookups| && 0 <= j && Names(env, inner, lookups[i], j, a) ==>
         var k := CountBefore(env, inner, lookups, i) + CountIn(env, inner, lookups[i], j);
         k < |named| && named[k] == a
  }

  /** Every resident table can be read. */
  ghost predicate Readable(env: Env, inner: Accounts, lookups: seq<TableLookup>) {
    forall i :: 0 <= i < |lookups| && lookups[i].table in inner ==> env.readTable(inner[lookups[i].table].data).Some?
  }

  lemma {:induction false} PickCounts(env: Env, inner: Accounts, l: TableLookup, n: nat)
    requires n <= |l.Indexes()| && l.table in inner && env.readTable(inner[l.table].data).Some?
    ensures var r := Pick(env.readTable(inner[l.table].data).value, l.Indexes()[..n]);
            && |r| == CountIn(env, inner, l, n)
            && forall j, a :: 0 <= j < n && Names(env, inner, l, j, a) ==>
                 CountIn(env, inner, l, j) < |r| && r[CountIn(env, inner, l, j)] == a
  {
    if n > 0 {
      PickCounts(env, inner, l, n - 1);
      assert l.Indexes()[..n][..n - 1] == l.Indexes()[..n - 1];
    }
  }

  lemma {:induction false} NoneNamed(env: Env, inner: Accounts, l: TableLookup, n: nat)
    requires l.table !in inner
    ensures CountIn(env, inner, l, n) == 0
  {
    if n > 0 { NoneNamed(env, inner, l, n - 1); }
  }

  /** What the lookups resolve to: the listing, unless a resident table cannot be read. */
  lemma {:induction false} ResolvedAre(env: Env, inner: Accounts, lookups: seq<TableLookup>)
    ensures Resolve(env, inner, lookups).Some? <==> Readable(env, inner, lookups)
    ensures Resolve(env, inner, lookups).Some? ==> Listing(env, inner, lookups, Resolve(env, inner, lookups).value)
  {
    if lookups != [] {
      var n := |lookups| - 1;
      var front, l := lookups[..n], lookups[n];
      ResolvedAre(env, inner, front);
      ReadableLast(env, inner, lookups);
      if Readable(env, inner, lookups) {
        if l.table in inner {
          assert l.Indexes()[..|l.Indexes()|] == l.Indexes();
          PickCounts(env, inner, l, |l.Indexes()|);
        } else {
          NoneNamed(env, inner, l, |l.Indexes()|);
        }
        ListingLast(env, inner, lookups, Resolve(env, inner, front).value, Resolve(env, inner, lookups).value);
      }
    }
  }

  lemma ReadableLast(env: Env, inner: Accounts, lookups: seq<TableLookup>)
    requires lookups != []
    ensures var n := |lookups| - 1;
            Readable(env, inner, lookups) <==>
            Readable(env, inner, lookups[..n]) && (lookups[n].table in inner ==> env.readTable(inner[lookups[n].table].data).Some?)
  {
    var n := |lookups| - 1;
    assert forall i :: 0 <= i < n ==> lookups[..n][i] == lookups[i];
  }

  lemma {:induction false} CountPrefix(env: Env, inner: Accounts, lookups: seq<TableLookup>, n: nat, i: nat)
    requires i <= n <= |lookups|
    ensures CountBefore(env, inner, lookups[..n], i) == CountBefore(env, inner, lookups, i)
    decreases i
  {
    if i > 0 { CountPrefix(env, inner, lookups, n, i - 1); }
  }

  lemma ListingLast(env: Env, inner: Accounts, lookups: seq<TableLookup>, before: seq<Addr>, named: seq<Addr>)
    requires lookups != []
    requires var n := |lookups| - 1;
             var l := lookups[n];
             && Listing(env, inner, lookups[..n], before) && before <= named
             && |named| == |before| + CountIn(env, inner, l, |l.writable + l.readonly|)
             && forall j, a :: 0 <= j && Names(env, inner, l, j, a) ==>
                  var k := |before| + CountIn(env, inner, l, j); k < |named| && named[k] == a
    ensures Listing(env, inner, lookups, named)
  {
    hide Names, CountIn;
    var n := |lookups| - 1;
    CountPrefix(env, inner, lookups, n, n);
    forall i, j, a | 0 <= i < |lookups| && 0 <= j && Names(env, inner, lookups[i], j, a)
      ensures var k := CountBefore(env, inner, lookups, i) + CountIn(env, inner, lookups[i], j); k < |named| && named[k] == a
    {
      if i < n {
        CountPrefix(env, inner, lookups, n, i);
        assert lookups[..n][i] == lookups[i];
      }
    }
  }

  lemma {:induction false} IndexAt(env: Env, inner: Accounts, l: TableLookup, n: nat, k: nat) returns (j: nat, a: Addr)
    requires k < CountIn(env, inner, l, n)
    ensures j < n && Names(env, inner, l, j, a) && CountIn(env, inner, l, j) == k
  {
    if k < CountIn(env, inner, l, n - 1) {
      j, a := IndexAt(env, inner, l, n - 1, k);
    } else {
      j := n - 1;
      a := env.readTable(inner[l.table].data).value[(l.writable + l.readonly)[j]];
    }
  }

  /** Every place of a listing is that of an index. */
  lemma {:induction false} NamedAt(env: Env, inner: Accounts, lookups: seq<TableLookup>, n: nat, k: nat) returns (i: nat, j: nat, a: Addr)
    requires n <= |lookups| && k < CountBefore(env, inner, lookups, n)
    ensures i < n && Names(env, inner, lookups[i], j, a)
    ensures k == CountBefore(env, inner, lookups, i) + CountIn(env, inner, lookups[i], j)
    decreases n
  {
    var before := CountBefore(env, inner, lookups, n - 1);
    if k < before {
      i, j, a := NamedAt(env, inner, lookups, n - 1, k);
    } else {
      i := n - 1;
      j, a := IndexAt(env, inner, lookups[i], |lookups[i].writable + lookups[i].readonly|, k - before);
    }
  }

  /** There is one listing, and nothing in it that no index names. */
  lemma ListingUnique(env: Env, inner: Accounts, lookups: seq<TableLookup>, a: seq<Addr>, b: seq<Addr>)
    requires Listing(env, inner, lookups, a) && Listing(env, inner, lookups, b)
    ensures a == b
    ensures forall x :: x in a ==> exists i, j :: 0 <= i < |lookups| && 0 <= j && Names(env, inner, lookups[i], j, x)
  {
    hide Names, CountIn, CountBefore;
    forall k | 0 <= k < |a| ensures a[k] == b[k] && exists i, j :: 0 <= i < |lookups| && 0 <= j && Names(env, inner, lookups[i], j, a[k]) {
      var i, j, x := NamedAt(env, inner, lookups, |lookups|, k);
    }
  }

  // ----- the message --------------------------------------------------------------------------

  /** The first wave asks for the static keys and the tables; if that succeeds and every resident table
      can be read, the second asks for exactly the listing of what the tables then say. */
  lemma MessageIs(env: Env, w: World, keys: seq<Addr>, tables: seq<Addr>, lookups: seq<TableLookup>, named: seq<Addr>)
    requires |tables| == |lookups| && forall i :: 0 <= i < |lookups| ==> tables[i] == lookups[i].table
    requires Listing(env, EnsurePresent(env, w, keys + tables).w.inner, lookups, named)
    ensures var first := EnsurePresent(env, w, keys + tables);
            HydrateMessage(env, w, keys, lookups)
            == if !first.ok then first
               else if !Readable(env, first.w.inner, lookups) then Outcome(first.w, false)
               else if named == [] then first
               else EnsurePresent(env, first.w, named)
  {
    hide EnsurePresent, Listing, Resolve, Readable;
    assert Tables(lookups) == tables;
    var inner := EnsurePresent(env, w, keys + tables).w.inner;
    ResolvedAre(env, inner, lookups);
    if Resolve(env, inner, lookups).Some? { ListingUnique(env, inner, lookups, named, Resolve(env, inner, lookups).value); }
  }

  predicate Resolved(w: World, a: Addr) {
    a in w.seen || a in w.inner
  }

  /** After a message that succeeded every static key, every table and every address that an index in
      range of a resident table names is resolved or resident; and every resident table can be read. */
  lemma MessageSettles(env: Env, w: World, keys: seq<Addr>, lookups: seq<TableLookup>)
    requires HydrateMessage(env, w, keys, lookups).ok
    ensures var r := HydrateMessage(env, w, keys, lookups).w;
            && (forall k :: k in keys ==> Resolved(r, k))
            && (forall i :: 0 <= i < |lookups| ==> Resolved(r, lookups[i].table))
            && Readable(env, r.inner, lookups)
            && (forall i, j, a :: 0 <= i < |lookups| && 0 <= j && Names(env, r.inner, lookups[i], j, a) ==> Resolved(r, a))
  {
    hide EnsurePresent, Listing, Resolve, Names, Readable;
    var all := keys + Tables(lookups);
    var first := EnsurePresent(env, w, all);
    EnsureSettles(env, w, all);
    FirstWave(keys, lookups, first.w);
    ResolvedAre(env, first.w.inner, lookups);
    var named := Resolve(env, first.w.inner, lookups).value;
    var r := HydrateMessage(env, w, keys, lookups).w;
    if named != [] {
      EnsureSettles(env, first.w, named);
      EnsureSafe(env, first.w, named);
    }
    SameTables(env, first.w.inner, r.inner, lookups);
    forall i, j, a | 0 <= i < |lookups| && 0 <= j && Names(env, r.inner, lookups[i], j, a) ensures Resolved(r, a) {
      NamedListed(env, first.w.inner, lookups, named, i, j, a);
    }
  }

  lemma FirstWave(keys: seq<Addr>, lookups: seq<TableLookup>, w: World)
    requires forall k :: k in keys + Tables(lookups) ==> Resolved(w, k)
    ensures (forall k :: k in keys ==> Resolved(w, k)) && forall i :: 0 <= i < |lookups| ==> Resolved(w, lookups[i].table)
  {
    forall i | 0 <= i < |lookups| ensures Resolved(w, lookups[i].table) {
      assert Tables(lookups)[i] == lookups[i].table && lookups[i].table in keys + Tables(lookups);
    }
  }

  lemma NamedListed(env: Env, inner: Accounts, lookups: seq<TableLookup>, named: seq<Addr>, i: nat, j: nat, a: Addr)
    requires Listing(env, inner, lookups, named) && i < |lookups| && Names(env, inner, lookups[i], j, a)
    ensures a in named
  {
  }

  /** Tables that are the same say the same. */
  lemma SameTables(env: Env, inner: Accounts, inner': Accounts, lookups: seq<TableLookup>)
    requires forall i :: 0 <= i < |lookups| ==>
               var t := lookups[i].table; (t in inner <==> t in inner') && (t in inner ==> inner[t] == inner'[t])
    ensures Readable(env, inner, lookups) <==> Readable(env, inner', lookups)
    ensures forall i, j, a :: 0 <= i < |lookups| && 0 <= j ==>
              (Names(env, inner, lookups[i], j, a) <==> Names(env, inner', lookups[i], j, a))
  {
  }

  // ----- what the accounts are ----------------------------------------------------------------

  /** A fetch without contradictory answers is on record. */
  lemma FetchOnRecord(env: Env, w: World, keys: seq<Addr>)
    requires CleanFetch(env, w, keys) && Fetch(env, w, keys).Got?
    ensures Recorded(Fetch(env, w, keys), keys) && Within(w.store, Fetch(env, w, keys).w.store)
  {
    FetchRecords(env, w, keys);
  }

  /** Every account a call writes is the one on record at its address; and a key it asked for is
      resident afterwards if the record has an account there whose owner is not excluded. */
  lemma HydratedAre(env: Env, w: World, keys: seq<Addr>)
    requires EnsurePresent(env, w, keys).ok && CleanEnsure(env, w, keys)
    ensures var r := EnsurePresent(env, w, keys).w;
            && (forall a :: a in r.inner && a !in w.inner ==> a in r.store && r.store[a] == Some(r.inner[a]))
            && (forall k :: k in keys && k !in w.seen && k !in w.inner && !Excluded(env, k) ==>
                  && k in r.store
                  && (r.store[k].Some? && r.store[k].value.owner !in env.excludePrograms ==>
                        k in r.inner && r.inner[k] == r.store[k].value))
  {
    hide Wanted, Fetch, Sift, Supplement, Inject, Ordered, CleanFetch, Within, Recorded;
    var (seen, wanted) := Wanted(env, w.inner, w.seen, keys);
    WantedIs(env, w.inner, w.seen, keys);
    var w1 := w.(seen := seen);
    if wanted != [] {
      var first := Fetch(env, w1, wanted);
      FetchOnRecord(env, w1, wanted);
      var plan := Sift(env, w.inner, seen, wanted, first.out);
      SiftIs(env, w.inner, seen, wanted, first.out);
      var w2 := first.w.(seen := plan.seen);
      PlanOnRecord(env, wanted, first, plan);
      var p := Prepare(env, w, keys);
      if plan.followups != [] {
        FetchOnRecord(env, w2, plan.followups);
        SecondOnRecord(plan, plan.followups, first.w.store, Fetch(env, w2, plan.followups));
      }
      WrittenOnRecord(env, w.inner, p.w.store, p.inject);
      forall k | k in keys && k !in w.seen && k !in w.inner && !Excluded(env, k)
        ensures k in p.w.store && (p.w.store[k].Some? && p.w.store[k].value.owner !in env.excludePrograms ==> (k, p.w.store[k].value) in p.inject)
      {
        AskedOnRecord(env, wanted, first, p.w.store, k);
      }
    }
  }

  ghost predicate OnRecord(store: map<Addr, Option<Acct>>, inject: seq<(Addr, Acct)>) {
    forall k, acc :: (k, acc) in inject ==> k in store && store[k] == Some(acc)
  }

  lemma PlanOnRecord(env: Env, keys: seq<Addr>, first: Fetched, plan: Plan)
    requires first.Got? && |first.out| == |keys| && Recorded(first, keys)
    requires forall k, acc :: (k, acc) in plan.inject <==> Candidate(env, keys, first.out, k, acc)
    ensures OnRecord(first.w.store, plan.inject)
  {
  }

  lemma SecondOnRecord(plan: Plan, keys: seq<Addr>, store: map<Addr, Option<Acct>>, second: Fetched)
    requires second.Got? ==> |second.out| == |keys| && Recorded(second, keys) && Within(store, second.w.store)
    requires OnRecord(store, plan.inject)
    ensures second.Got? ==> OnRecord(second.w.store, Supplement(plan, keys, second.out).inject) && Within(store, second.w.store)
    ensures second.Got? ==> forall k, acc :: (k, acc) in plan.inject ==> (k, acc) in Supplement(plan, keys, second.out).inject
  {
    if second.Got? { SupplementIs(plan, keys, second.out); }
  }

  lemma WrittenOnRecord(env: Env, inner: Accounts, store: map<Addr, Option<Acct>>, inject: seq<(Addr, Acct)>)
    requires OnRecord(store, inject)
    ensures var (m, ok) := Inject(env, inner, Ordered(inject));
            && (forall a :: a in m && a !in inner ==> a in store && store[a] == Some(m[a]))
            && (ok ==> forall k, acc :: (k, acc) in inject ==> k in m)
  {
    hide Inject, Ordered;
    InjectIs(env, inner, Ordered(inject));
    OrderedSame(inject);
  }

  lemma AskedOnRecord(env: Env, wanted: seq<Addr>, first: Fetched, store: map<Addr, Option<Acct>>, k: Addr)
    requires first.Got? && |first.out| == |wanted| && Recorded(first, wanted) && Within(first.w.store, store) && k in wanted
    ensures k in store
    ensures store[k].Some? && store[k].value.owner !in env.excludePrograms ==> Candidate(env, wanted, first.out, k, store[k].value)
  {
    var i :| 0 <= i < |wanted| && wanted[i] == k;
    assert first.out[i] == store[k];
  }

  // ----- small parts --------------------------------------------------------------------------

  /** The programdata address is what stands in the 32 bytes behind the tag 2 of four bytes. */
  lemma ProgramdataIff(data: seq<Byte>, a: Addr)
    ensures ProgramdataAddress(data) == Some(a) <==>
            |a.bytes| == 32 && exists rest: seq<Byte> :: data == [2, 0, 0, 0] + a.bytes + rest
  {
    if ProgramdataAddress(data) == Some(a) {
      assert data == [2, 0, 0, 0] + a.bytes + data[36..];
    }
    if |a.bytes| == 32 && exists rest: seq<Byte> :: data == [2, 0, 0, 0] + a.bytes + rest {
      var rest: seq<Byte> :| data == [2, 0, 0, 0] + a.bytes + rest;
      assert data[4..36] == a.bytes;
    }
  }

  /** The endpoint is asked once in a fetch, and only if some key is not on record. */
  lemma FetchCounts(env: Env, w: World, keys: seq<Addr>)
    ensures Fetch(env, w, keys).w.fetches == w.fetches + if env.rpc.Online? && exists i :: 0 <= i < |keys| && keys[i] !in w.store then 1 else 0
  {
    hide Record, Answers;
    var misses := Misses(w.store, keys);
    if misses != [] { assert keys[misses[0]] !in w.store; }
  }

  /** A fetch goes through exactly if the batch of every missing key does, a hundred to a batch. */
  lemma AllUpIff(rpc: Rpc, t: nat, misses: nat)
    requires rpc.Online?
    ensures AllUp(rpc, t, misses) <==> forall m :: 0 <= m < misses ==> rpc.up(t, m / 100)
  {
    if forall m :: 0 <= m < misses ==> rpc.up(t, m / 100) {
      forall b | 0 <= b < Batches(misses) ensures rpc.up(t, b) {
        assert 100 * b / 100 == b && 100 * b < misses;
      }
    }
  }

  // ----- reset --------------------------------------------------------------------------------

  /** A reset forgets what was resolved and nothing that was recorded: a key touched afterwards is asked
      for exactly if it is neither excluded nor among the accounts of the new machine. */
  lemma ResetForgets(env: Env, w: World, genesis: Accounts, keys: seq<Addr>, k: Addr)
    ensures var r := Exec(env, w, Reset(genesis));
            && r.ok && r.w.inner == genesis && r.w.store == w.store && r.w.fetches == w.fetches
            && (k in Wanted(env, r.w.inner, r.w.seen, keys).1 <==> k in keys && !Excluded(env, k) && k !in genesis)
  {
    WantedIs(env, genesis, {}, keys);
  }

  /** So an account hydrated before a reset is hydrated again by the next touch, as it was recorded. */
  lemma ResetHydratesAgain(env: Env, w: World, genesis: Accounts, k: Addr, acc: Acct)
    requires k in w.store && w.store[k] == Some(acc) && !Excluded(env, k) && acc.owner !in env.excludePrograms && k !in genesis
    requires var r := Exec(env, w, Reset(genesis)).w; EnsurePresent(env, r, [k]).ok && CleanEnsure(env, r, [k])
    ensures var r := EnsurePresent(env, Exec(env, w, Reset(genesis)).w, [k]).w; k in r.inner && r.inner[k] == acc
  {
    hide EnsurePresent, CleanEnsure;
    var r := Exec(env, w, Reset(genesis)).w;
    HydratedAre(env, r, [k]);
    StoreGrows(env, r, [k]);
  }

  lemma StoreGrows(env: Env, w: World, keys: seq<Addr>)
    ensures Within(w.store, EnsurePresent(env, w, keys).w.store)
  {
    hide Wanted, Fetch, Sift, Supplement, Inject, Ordered;
    var (seen, wanted) := Wanted(env, w.inner, w.seen, keys);
    var w1 := w.(seen := seen);
    var first := Fetch(env, w1, wanted);
    FetchKeepsStore(env, w1, wanted);
    if first.Got? {
      var plan := Sift(env, w.inner, seen, wanted, first.out);
      FetchKeepsStore(env, first.w.(seen := plan.seen), plan.followups);
    }
  }

  lemma FetchKeepsStore(env: Env, w: World, keys: seq<Addr>)
    ensures Within(w.store, Fetch(env, w, keys).w.store)
  {
    hide Misses, Record;
    if Fetch(env, w, keys).Got? { FetchRecords(env, w, keys); }
  }
}
