/** Which reports may be merged: never two builds of one program. */
module Builds {
  /** A program's entry in a report's sidecar; the digest of its code is empty where unknown. */
  datatype Info = Info(program: string, digest: string)

  predicate Declares(infos: seq<Info>, p: string, d: string) {
    d != "" && Info(p, d) in infos
  }

  /** Two different builds of one program. */
  ghost predicate Conflict(infos: seq<Info>) {
    exists p, d, e :: d != e && Declares(infos, p, d) && Declares(infos, p, e)
  }

  function Flat(metas: seq<seq<Info>>): seq<Info> {
    if metas == [] then [] else Flat(metas[..|metas| - 1]) + metas[|metas| - 1]
  }

  /** One digest is remembered for each program that has declared any. */
  ghost predicate Tracks(seen: map<string, (string, nat)>, infos: seq<Info>) {
    && (forall p :: p in seen ==> Declares(infos, p, seen[p].0))
    && forall p, d :: Declares(infos, p, d) ==> p in seen
  }

  /** After one more entry: a conflict exactly if it disagrees with what is remembered. */
  lemma OneMore(seen: map<string, (string, nat)>, infos: seq<Info>, x: Info, i: nat)
    requires Tracks(seen, infos) && x.digest != ""
    ensures x.program in seen && seen[x.program].0 != x.digest ==> Conflict(infos + [x])
    ensures !Conflict(infos) && (x.program in seen ==> seen[x.program].0 == x.digest) ==> !Conflict(infos + [x])
    ensures Tracks(if x.program in seen then seen else seen[x.program := (x.digest, i)], infos + [x])
  {
    var more := infos + [x];
    assert forall p, d :: Declares(more, p, d) <==> Declares(infos, p, d) || Info(p, d) == x;
    if x.program in seen && seen[x.program].0 != x.digest {
      assert Declares(more, x.program, seen[x.program].0) && Declares(more, x.program, x.digest);
    }
    if !Conflict(infos) && x.program in seen && seen[x.program].0 == x.digest {
      assert forall p, d :: Declares(more, p, d) <==> Declares(infos, p, d);
    }
  }

  lemma OneBlank(seen: map<string, (string, nat)>, infos: seq<Info>, x: Info)
    requires x.digest == ""
    ensures Tracks(seen, infos) ==> Tracks(seen, infos + [x])
    ensures Conflict(infos) <==> Conflict(infos + [x])
  {
    SameDeclared(infos, infos + [x]);
  }

  lemma SameDeclared(a: seq<Info>, b: seq<Info>)
    requires forall p, d :: Declares(a, p, d) <==> Declares(b, p, d)
    ensures Conflict(a) <==> Conflict(b)
    ensures forall seen :: Tracks(seen, a) <==> Tracks(seen, b)
  {
    if Conflict(a) {
      var p, d, e :| d != e && Declares(a, p, d) && Declares(a, p, e);
      assert Declares(b, p, d) && Declares(b, p, e);
    }
    if Conflict(b) {
      var p, d, e :| d != e && Declares(b, p, d) && Declares(b, p, e);
      assert Declares(a, p, d) && Declares(a, p, e);
    }
  }

  lemma ConflictStays(a: seq<Info>, b: seq<Info>)
    requires Conflict(a)
    ensures Conflict(a + b)
  {
    var p, d, e :| d != e && Declares(a, p, d) && Declares(a, p, e);
    assert Declares(a + b, p, d) && Declares(a + b, p, e);
  }

  /** Inputs `i` and `j` declare different builds of `p`. */
  predicate Mismatch(metas: seq<seq<Info>>, p: string, i: nat, j: nat) {
    && i < |metas| && j < |metas|
    && exists x, y :: x in metas[i] && y in metas[j] && x.program == p == y.program && x.digest != "" && y.digest != "" && x.digest != y.digest
  }

  /** Every remembered digest is that of the input remembered with it. */
  ghost predicate Sourced(seen: map<string, (string, nat)>, metas: seq<seq<Info>>) {
    forall p :: p in seen ==> seen[p].1 < |metas| && Declares(metas[seen[p].1], p, seen[p].0)
  }

  /** `_check_builds`: refused exactly if two inputs declare different builds of a program and the
      merge is not forced. Each complaint names a program and two inputs that disagree about it, and
      there is one exactly if any two do. */
  method CheckBuilds(metas: seq<seq<Info>>, force: bool)
    returns (refused: bool, complaints: seq<(string, nat, nat)>, unchecked: seq<nat>)
    ensures complaints != [] <==> Conflict(Flat(metas))
    ensures refused <==> complaints != [] && !force
    ensures forall k :: 0 <= k < |complaints| ==> Mismatch(metas, complaints[k].0, complaints[k].1, complaints[k].2)
    ensures !refused ==> forall i :: i in unchecked <==> 0 <= i < |metas| && metas[i] == []
  {
    hide Tracks, Conflict, Declares, Mismatch, Sourced;
    var seen: map<string, (string, nat)> := map[];
    refused, complaints, unchecked := false, [], [];
    Nothing(metas);
    for i := 0 to |metas|
      invariant Tracks(seen, Flat(metas[..i])) && (complaints != [] <==> Conflict(Flat(metas[..i]))) && (complaints != [] ==> force)
      invariant Sourced(seen, metas)
      invariant forall k :: 0 <= k < |complaints| ==> Mismatch(metas, complaints[k].0, complaints[k].1, complaints[k].2)
      invariant forall k :: k in unchecked <==> 0 <= k < i && metas[k] == []
    {
      var meta := metas[i];
      ghost var before := Flat(metas[..i]);
      assert metas[..i + 1][..i] == metas[..i];
      if meta == [] {
        unchecked := unchecked + [i];
        assert before + meta == before;
        continue;
      }
      assert before + meta[..0] == before;
      for j := 0 to |meta|
        invariant Tracks(seen, before + meta[..j]) && (complaints != [] <==> Conflict(before + meta[..j])) && (complaints != [] ==> force)
        invariant Sourced(seen, metas)
        invariant forall k :: 0 <= k < |complaints| ==> Mismatch(metas, complaints[k].0, complaints[k].1, complaints[k].2)
      {
        var x := meta[j];
        assert before + meta[..j + 1] == before + meta[..j] + [x];
        if x.digest == "" {
          OneBlank(seen, before + meta[..j], x);
          continue;
        }
        OneMore(seen, before + meta[..j], x, i);
        if x.program in seen && seen[x.program].0 != x.digest {
          Complaint(seen, metas, i, j);
          complaints := complaints + [(x.program, i, seen[x.program].1)];
          if !force {
            RestOf(metas, i, j);
            return true, complaints, [];
          }
        } else if complaints != [] {
          ConflictStays(before + meta[..j], [x]);
        }
        if x.program !in seen {
          NewSource(seen, metas, i, j);
          seen := seen[x.program := (x.digest, i)];
        }
      }
      assert before + meta[..|meta|] == before + meta;
    }
    assert metas[..|metas|] == metas;
  }

  lemma Complaint(seen: map<string, (string, nat)>, metas: seq<seq<Info>>, i: nat, j: nat)
    requires i < |metas| && j < |metas[i]| && metas[i][j].digest != "" && Sourced(seen, metas)
    requires metas[i][j].program in seen && seen[metas[i][j].program].0 != metas[i][j].digest
    ensures Mismatch(metas, metas[i][j].program, i, seen[metas[i][j].program].1)
  {
    var x := metas[i][j];
    assert x in metas[i] && Info(x.program, seen[x.program].0) in metas[seen[x.program].1];
  }

  lemma NewSource(seen: map<string, (string, nat)>, metas: seq<seq<Info>>, i: nat, j: nat)
    requires i < |metas| && j < |metas[i]| && metas[i][j].digest != "" && Sourced(seen, metas)
    ensures Sourced(seen[metas[i][j].program := (metas[i][j].digest, i)], metas)
  {
    assert metas[i][j] in metas[i];
  }

  lemma Nothing(metas: seq<seq<Info>>)
    ensures Tracks(map[], []) && !Conflict([]) && Sourced(map[], metas)
  {
  }

  /** A conflict among the entries seen so far is one among all. */
  lemma {:induction false} RestOf(metas: seq<seq<Info>>, i: nat, j: nat)
    requires i < |metas| && j < |metas[i]| && Conflict(Flat(metas[..i]) + metas[i][..j + 1])
    ensures Conflict(Flat(metas))
    decreases |metas|
  {
    hide Conflict;
    var m := |metas| - 1;
    if i == m {
      assert Flat(metas[..i]) + metas[i][..j + 1] + metas[i][j + 1..] == Flat(metas);
      ConflictStays(Flat(metas[..i]) + metas[i][..j + 1], metas[i][j + 1..]);
    } else {
      assert metas[..m][..i] == metas[..i];
      RestOf(metas[..m], i, j);
      ConflictStays(Flat(metas[..m]), metas[m]);
    }
  }

  // ----- the merged report's own sidecar ------------------------------------------------------

  /** What `merge_lcov` writes beside the merged report: the last entry of each program. */
  function Combined(infos: seq<Info>): map<string, string> {
    if infos == [] then map[]
    else Combined(infos[..|infos| - 1])[infos[|infos| - 1].program := infos[|infos| - 1].digest]
  }

  method CombineMetas(metas: seq<seq<Info>>) returns (combined: map<string, string>)
    ensures combined == Combined(Flat(metas))
  {
    hide Combined;
    combined := map[];
    assert Combined([]) == map[] by { CombinedNothing(); }
    for i := 0 to |metas|
      invariant combined == Combined(Flat(metas[..i]))
    {
      assert metas[..i + 1][..i] == metas[..i];
      combined := Update(combined, metas[i], Flat(metas[..i]));
    }
    assert metas[..|metas|] == metas;
  }

  lemma CombinedNothing()
    ensures Combined([]) == map[]
  {
  }

  method Update(combined: map<string, string>, meta: seq<Info>, ghost before: seq<Info>) returns (r: map<string, string>)
    requires combined == Combined(before)
    ensures r == Combined(before + meta)
  {
    r := combined;
    assert before + meta[..0] == before;
    for j := 0 to |meta|
      invariant r == Combined(before + meta[..j])
    {
      ghost var more := before + meta[..j + 1];
      assert more[..|more| - 1] == before + meta[..j];
      r := r[meta[j].program := meta[j].digest];
    }
    assert meta[..|meta|] == meta;
  }

  lemma {:induction false} CombinedIs(infos: seq<Info>, p: string)
    ensures p in Combined(infos) <==> exists i :: 0 <= i < |infos| && infos[i].program == p
    ensures p in Combined(infos) ==>
              exists i :: 0 <= i < |infos| && infos[i] == Info(p, Combined(infos)[p]) && forall k :: i < k < |infos| ==> infos[k].program != p
  {
    if infos != [] {
      var m := |infos| - 1;
      var front := infos[..m];
      CombinedIs(front, p);
      assert Combined(infos) == Combined(front)[infos[m].program := infos[m].digest];
      hide Combined;
      assert forall i :: 0 <= i < m ==> front[i] == infos[i];
      if infos[m].program == p {
        assert infos[m] == Info(p, Combined(infos)[p]);
      }
    }
  }

  /** A program's last entry has no digest although an earlier one has. */
  ghost predicate Blanked(infos: seq<Info>) {
    exists i, j :: 0 <= i < j < |infos| && infos[i].program == infos[j].program && infos[i].digest != "" && infos[j].digest == ""
                   && forall k :: j < k < |infos| ==> infos[k].program != infos[j].program
  }

  /** `list` holds the combined entries, in any order. */
  ghost predicate Stored(list: seq<Info>, infos: seq<Info>) {
    forall x :: x in list <==> x.program in Combined(infos) && Combined(infos)[x.program] == x.digest
  }

  /** The merged report stands in for its inputs in every later merge if and only if they did not
      conflict, so that no merge was forced, and no program's last entry is blank where an earlier
      one is not. */
  lemma CarriedIff(infos: seq<Info>, list: seq<Info>)
    requires Stored(list, infos)
    ensures !Blanked(infos) && !Conflict(infos) <==> forall more :: Conflict(infos + more) <==> Conflict(list + more)
  {
    if Blanked(infos) {
      var more := Forgotten(infos, list);
      assert !(Conflict(infos + more) <==> Conflict(list + more));
    } else if Conflict(infos) {
      assert infos + [] == infos && list + [] == list;
      assert !(Conflict(infos + []) <==> Conflict(list + []));
    } else {
      forall more ensures Conflict(infos + more) <==> Conflict(list + more) {
        Carried(infos, list, more);
      }
    }
  }

  lemma Carried(infos: seq<Info>, list: seq<Info>, more: seq<Info>)
    requires !Conflict(infos) && Stored(list, infos) && !Blanked(infos)
    ensures Conflict(infos + more) <==> Conflict(list + more)
  {
    hide Conflict, Blanked;
    forall p, d ensures Declares(infos + more, p, d) <==> Declares(list + more, p, d) {
      CarriedOne(infos, list, p, d);
    }
    SameDeclared(infos + more, list + more);
  }

  lemma CarriedOne(infos: seq<Info>, list: seq<Info>, p: string, d: string)
    requires !Conflict(infos) && Stored(list, infos) && !Blanked(infos)
    ensures Declares(infos, p, d) <==> Declares(list, p, d)
  {
    CombinedIs(infos, p);
    if p in Combined(infos) {
      var j :| 0 <= j < |infos| && infos[j] == Info(p, Combined(infos)[p]) && forall k :: j < k < |infos| ==> infos[k].program != p;
      if Declares(infos, p, d) {
        var i :| 0 <= i < |infos| && infos[i] == Info(p, d);
        assert i <= j;
        assert Combined(infos)[p] != "";
        assert Declares(infos, p, Combined(infos)[p]);
      }
    }
  }

  lemma Forgotten(infos: seq<Info>, list: seq<Info>) returns (more: seq<Info>)
    requires Stored(list, infos) && Blanked(infos)
    ensures Conflict(infos + more) && !Conflict(list + more)
  {
    var i, j :| 0 <= i < j < |infos| && infos[i].program == infos[j].program && infos[i].digest != "" && infos[j].digest == ""
                && forall k :: j < k < |infos| ==> infos[k].program != infos[j].program;
    var p, d := infos[i].program, infos[i].digest;
    CombinedIs(infos, p);
    assert infos[j].program == p;
    assert Combined(infos)[p] == "";
    more := [Info(p, d + "x")];
    assert Declares(infos + more, p, d) && Declares(infos + more, p, d + "x") && d != d + "x";
    forall q, e | Declares(list + more, q, e) ensures (q != p ==> q in Combined(infos) && Combined(infos)[q] == e) && (q == p ==> e == d + "x") {
      assert Info(q, e) in list || Info(q, e) == more[0];
    }
  }
}
