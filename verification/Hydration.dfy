/** Fork hydration: accounts missing from the local chain are fetched from a snapshot store or an
    RPC node on first touch. The functions here say what one call does to the state; the class in
    `HydrationMachine` does it in loops. */
module Hydration {
  import opened Wrappers
  import opened Bytes

  datatype Addr = Addr(bytes: seq<Byte>)

  datatype Acct = Acct(lamports: nat, data: seq<Byte>, owner: Addr, executable: bool, rentEpoch: nat)

  type Accounts = map<Addr, Acct>

  /** The RPC node answers a key of batch `b` of the `t`-th fetch, if that batch goes through.
      Answers may differ from fetch to fetch. */
  datatype Rpc =
    | Offline
    | Online(answer: (nat, nat, Addr) -> Option<Acct>, up: (nat, nat) -> bool)

  /** What does not change while a session runs. `admits` says whether `set_account` accepts an
      account into given resident accounts, `readTable` parses a lookup table. */
  datatype Env = Env(
    excludePrograms: set<Addr>,
    excludeAddrs: set<Addr>,
    loader: Addr,
    rpc: Rpc,
    admits: (Accounts, Addr, Acct) -> bool,
    readTable: seq<Byte> -> Option<seq<Addr>>)

  /** Resident accounts, addresses resolved so far, the snapshot store (`None` = known absent),
      and the number of fetches made. */
  datatype World = World(inner: Accounts, seen: set<Addr>, store: map<Addr, Option<Acct>>, fetches: nat)

  datatype Outcome = Outcome(w: World, ok: bool)

  const BATCH: nat := 100

  /** The address in an `UpgradeableLoaderState::Program`. */
  function ProgramdataAddress(data: seq<Byte>): (r: Option<Addr>)
    ensures r.Some? ==> |r.value.bytes| == 32
  {
    if |data| >= 36 && data[0..4] == [2, 0, 0, 0] then Some(Addr(data[4..36])) else None
  }

  // ----- fetch --------------------------------------------------------------------------------

  /** Positions of the keys that are not in the store. */
  function Misses(store: map<Addr, Option<Acct>>, keys: seq<Addr>): (r: seq<nat>)
    ensures forall m :: 0 <= m < |r| ==> r[m] < |keys| && keys[r[m]] !in store
    ensures forall i :: 0 <= i < |keys| && keys[i] !in store ==> i in r
    ensures forall m, n :: 0 <= m < n < |r| ==> r[m] < r[n]
  {
    if keys == [] then []
    else
      var n := |keys| - 1;
      var front := Misses(store, keys[..n]);
      if keys[n] in store then front else front + [n]
  }

  /** What the store already says, key by key. */
  function Cached(store: map<Addr, Option<Acct>>, keys: seq<Addr>): (r: seq<Option<Acct>>)
    ensures |r| == |keys|
    ensures forall i :: 0 <= i < |keys| ==> r[i] == if keys[i] in store then store[keys[i]] else None
  {
    seq(|keys|, (i: nat) requires i < |keys| => if keys[i] in store then store[keys[i]] else None)
  }

  function Answers(rpc: Rpc, t: nat, keys: seq<Addr>, misses: seq<nat>): (r: seq<Option<Acct>>)
    requires rpc.Online? && forall m :: 0 <= m < |misses| ==> misses[m] < |keys|
    ensures |r| == |misses| && forall m :: 0 <= m < |misses| ==> r[m] == rpc.answer(t, m / BATCH, keys[misses[m]])
  {
    seq(|misses|, (m: nat) requires m < |misses| => rpc.answer(t, m / BATCH, keys[misses[m]]))
  }

  predicate AllUp(rpc: Rpc, t: nat, misses: nat)
    requires rpc.Online?
  {
    forall b :: 0 <= b < Batches(misses) ==> rpc.up(t, b)
  }

  function Batches(n: nat): nat {
    (n + BATCH - 1) / BATCH
  }

  /** Answers written to the store and put in their places. */
  function Record(store: map<Addr, Option<Acct>>, out: seq<Option<Acct>>, keys: seq<Addr>, misses: seq<nat>, answers: seq<Option<Acct>>)
    : (r: (map<Addr, Option<Acct>>, seq<Option<Acct>>))
    requires |out| == |keys| && |misses| == |answers| && forall m :: 0 <= m < |misses| ==> misses[m] < |keys|
    ensures |r.1| == |keys|
    decreases misses
  {
    if misses == [] then (store, out)
    else
      var n := |misses| - 1;
      var (s, o) := Record(store, out, keys, misses[..n], answers[..n]);
      (s[keys[misses[n]] := answers[n]], o[misses[n] := answers[n]])
  }

  datatype Fetched = Got(w: World, out: seq<Option<Acct>>) | Refused(w: World)

  /** `Fork::fetch`: store first, then RPC in batches, recording what was fetched. */
  function Fetch(env: Env, w: World, keys: seq<Addr>): (r: Fetched)
    ensures r.Got? ==> |r.out| == |keys|
    ensures r.w.inner == w.inner && r.w.seen == w.seen
  {
    var misses := Misses(w.store, keys);
    var cached := Cached(w.store, keys);
    if misses == [] then Got(w, cached)
    else if env.rpc.Offline? then Refused(w)
    else
      var w' := w.(fetches := w.fetches + 1);
      if !AllUp(env.rpc, w.fetches, |misses|) then Refused(w')
      else
        var (store, out) := Record(w.store, cached, keys, misses, Answers(env.rpc, w.fetches, keys, misses));
        Got(w'.(store := store), out)
  }

  // ----- ensure_present -----------------------------------------------------------------------

  predicate Excluded(env: Env, k: Addr) {
    k in env.excludePrograms || k in env.excludeAddrs
  }

  /** The first pass: excluded keys become seen, and keys neither seen nor resident are wanted. */
  function Wanted(env: Env, inner: Accounts, seen: set<Addr>, keys: seq<Addr>): (r: (set<Addr>, seq<Addr>)) {
    if keys == [] then (seen, [])
    else
      var n := |keys| - 1;
      var (s, c) := Wanted(env, inner, seen, keys[..n]);
      var k := keys[n];
      if k in s then (s, c)
      else if Excluded(env, k) then (s + {k}, c)
      else if k in inner then (s, c)
      else (s, c + [k])
  }

  /** What the second pass has decided: addresses seen, accounts to inject, programdata to fetch. */
  datatype Plan = Plan(seen: set<Addr>, inject: seq<(Addr, Acct)>, followups: seq<Addr>)

  function SiftOne(env: Env, inner: Accounts, p: Plan, k: Addr, fetched: Option<Acct>): Plan {
    var seen := p.seen + {k};
    if fetched.None? || fetched.value.owner in env.excludePrograms then p.(seen := seen)
    else
      var acc := fetched.value;
      var pd := if acc.executable && acc.owner == env.loader then ProgramdataAddress(acc.data) else None;
      var more := if pd.Some? && pd.value !in seen && pd.value !in env.excludeAddrs && pd.value !in inner then [pd.value] else [];
      Plan(seen, p.inject + [(k, acc)], p.followups + more)
  }

  function Sift(env: Env, inner: Accounts, seen: set<Addr>, keys: seq<Addr>, out: seq<Option<Acct>>): Plan
    requires |keys| == |out|
  {
    if keys == [] then Plan(seen, [], [])
    else
      var n := |keys| - 1;
      SiftOne(env, inner, Sift(env, inner, seen, keys[..n], out[..n]), keys[n], out[n])
  }

  /** The followed-up accounts join the plan; their owners are not looked at. */
  function Supplement(p: Plan, keys: seq<Addr>, out: seq<Option<Acct>>): Plan
    requires |keys| == |out|
  {
    if keys == [] then p
    else
      var n := |keys| - 1;
      var q := Supplement(p, keys[..n], out[..n]);
      q.(seen := q.seen + {keys[n]}, inject := q.inject + if out[n].Some? then [(keys[n], out[n].value)] else [])
  }

  function Select(inject: seq<(Addr, Acct)>, executable: bool): (r: seq<(Addr, Acct)>)
    ensures forall i :: 0 <= i < |r| ==> r[i] in inject && r[i].1.executable == executable
    ensures forall i :: 0 <= i < |inject| && inject[i].1.executable == executable ==> inject[i] in r
  {
    if inject == [] then []
    else
      var n := |inject| - 1;
      var front := Select(inject[..n], executable);
      if inject[n].1.executable == executable then front + [inject[n]] else front
  }

  /** `sort_by_key(executable)`, which is stable: data accounts first. */
  function Ordered(inject: seq<(Addr, Acct)>): seq<(Addr, Acct)> {
    Select(inject, false) + Select(inject, true)
  }

  /** `set_account` one by one, stopping at the first that is refused. */
  function Inject(env: Env, inner: Accounts, inject: seq<(Addr, Acct)>): (r: (Accounts, bool)) {
    if inject == [] then (inner, true)
    else
      var n := |inject| - 1;
      var (m, ok) := Inject(env, inner, inject[..n]);
      var (k, acc) := inject[n];
      if ok && env.admits(m, k, acc) then (m[k := acc], true) else (m, false)
  }

  /** Where a call gets to before anything is written: refused by the first fetch, refused by the
      second, or with a list of accounts to write. */
  datatype Prepared =
    | Nothing(w: World)
    | FirstRefused(w: World)
    | SecondRefused(w: World)
    | Ready(w: World, inject: seq<(Addr, Acct)>)

  function Prepare(env: Env, w: World, keys: seq<Addr>): (r: Prepared)
    ensures r.w.inner == w.inner
  {
    var (seen, wanted) := Wanted(env, w.inner, w.seen, keys);
    var w1 := w.(seen := seen);
    if wanted == [] then Nothing(w1)
    else
      var first := Fetch(env, w1, wanted);
      if first.Refused? then FirstRefused(first.w)
      else
        var plan := Sift(env, w.inner, seen, wanted, first.out);
        var w2 := first.w.(seen := plan.seen);
        if plan.followups == [] then Ready(w2, plan.inject)
        else
          var second := Fetch(env, w2, plan.followups);
          if second.Refused? then SecondRefused(second.w)
          else
            var full := Supplement(plan, plan.followups, second.out);
            Ready(second.w.(seen := full.seen), full.inject)
  }

  /** `ensure_present`. */
  function EnsurePresent(env: Env, w: World, keys: seq<Addr>): Outcome {
    match Prepare(env, w, keys)
    case Nothing(w') => Outcome(w', true)
    case FirstRefused(w') => Outcome(w', false)
    case SecondRefused(w') => Outcome(w', false)
    case Ready(w', inject) =>
      var (inner, ok) := Inject(env, w'.inner, Ordered(inject));
      Outcome(w'.(inner := inner), ok)
  }

  // ----- messages and sessions ----------------------------------------------------------------

  datatype TableLookup = TableLookup(table: Addr, writable: seq<nat>, readonly: seq<nat>) {
    function Indexes(): seq<nat> {
      writable + readonly
    }
  }

  /** Addresses the lookups resolve to; `None` if a resident table does not parse. */
  function Resolve(env: Env, inner: Accounts, lookups: seq<TableLookup>): Option<seq<Addr>> {
    if lookups == [] then Some([])
    else
      var n := |lookups| - 1;
      var front := Resolve(env, inner, lookups[..n]);
      var l := lookups[n];
      if front.None? then None
      else if l.table !in inner then front
      else
        var addrs := env.readTable(inner[l.table].data);
        if addrs.None? then None else Some(front.value + Pick(addrs.value, l.Indexes()))
  }

  function Pick(addrs: seq<Addr>, indexes: seq<nat>): seq<Addr> {
    if indexes == [] then []
    else
      var n := |indexes| - 1;
      Pick(addrs, indexes[..n]) + if indexes[n] < |addrs| then [addrs[indexes[n]]] else []
  }

  function Tables(lookups: seq<TableLookup>): seq<Addr> {
    seq(|lookups|, (i: nat) requires i < |lookups| => lookups[i].table)
  }

  /** `hydrate_for_message`: static keys and tables first, then what the tables point at. */
  function HydrateMessage(env: Env, w: World, keys: seq<Addr>, lookups: seq<TableLookup>): Outcome {
    var first := EnsurePresent(env, w, keys + Tables(lookups));
    if !first.ok then first
    else
      var resolved := Resolve(env, first.w.inner, lookups);
      if resolved.None? then Outcome(first.w, false)
      else if resolved.value == [] then first
      else EnsurePresent(env, first.w, resolved.value)
  }

  /** What happens in a session. `Local` is any change to the resident accounts that is made
      without the fork: a transaction, an airdrop, `set_account`. */
  datatype Op =
    | Touch(keys: seq<Addr>)
    | Message(keys: seq<Addr>, lookups: seq<TableLookup>)
    | Local(update: Accounts -> Accounts)
    | Reset(genesis: Accounts)

  function Exec(env: Env, w: World, op: Op): Outcome {
    match op
    case Touch(keys) => EnsurePresent(env, w, keys)
    case Message(keys, lookups) => HydrateMessage(env, w, keys, lookups)
    case Local(update) => Outcome(w.(inner := update(w.inner)), true)
    case Reset(genesis) => Outcome(w.(inner := genesis, seen := {}), true)
  }

  /** A session in which every operation succeeds, or `None`. */
  function Run(env: Env, w: World, ops: seq<Op>): Option<World> {
    if ops == [] then Some(w)
    else
      var before := Run(env, w, ops[..|ops| - 1]);
      if before.None? then None
      else
        var r := Exec(env, before.value, ops[|ops| - 1]);
        if r.ok then Some(r.w) else None
  }
}
