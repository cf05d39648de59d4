/** The call tree and its reconstruction from stack heights (`nest`). */
module CallTree {
  /** One invocation and the CPIs it made, in order. */
  datatype Tree<L> = Tree(frame: L, height: nat, children: seq<Tree<L>>)

  datatype Entry<L> = Entry(frame: L, height: nat)

  /** Execution order: a node, then its CPIs. */
  function Preorder<L>(t: Tree<L>): (r: seq<Entry<L>>)
    ensures |r| > 0 && r[0] == Entry(t.frame, t.height)
    decreases t, 0
  {
    [Entry(t.frame, t.height)] + PreorderAll(t.children)
  }

  function PreorderAll<L>(ts: seq<Tree<L>>): (r: seq<Entry<L>>)
    ensures ts == [] <==> r == []
    decreases ts, 0
  {
    if ts == [] then [] else Preorder(ts[0]) + PreorderAll(ts[1..])
  }

  /** Every node's height is its depth in the tree, the root being at depth `d`. */
  predicate Nested<L>(t: Tree<L>, d: nat)
    decreases t, 0
  {
    t.height == d && AllNested(t.children, d + 1)
  }

  predicate AllNested<L>(ts: seq<Tree<L>>, d: nat)
    decreases ts, 0
  {
    ts == [] || (Nested(ts[0], d) && AllNested(ts[1..], d))
  }

  /** Heights the runtime can produce below an instruction: none under 2, none rising by more
      than one. */
  predicate WellFormed<L>(inner: seq<Entry<L>>) {
    forall i :: 0 <= i < |inner| ==> 2 <= inner[i].height <= (if i == 0 then 1 else inner[i - 1].height) + 1
  }

  // ----- the stack of open nodes --------------------------------------------------------------

  function Flat<L>(stack: seq<Tree<L>>): seq<Entry<L>> {
    if stack == [] then [] else Flat(stack[..|stack| - 1]) + Preorder(stack[|stack| - 1])
  }

  /** The innermost open node is finished and joins its parent's children. */
  function Close<L>(stack: seq<Tree<L>>): (r: seq<Tree<L>>)
    requires |stack| >= 2
    ensures |r| == |stack| - 1
  {
    var n := |stack| - 2;
    var parent := stack[n];
    stack[..n] + [parent.(children := parent.children + [stack[n + 1]])]
  }

  lemma {:induction false} PreorderAllSnoc<L>(ts: seq<Tree<L>>, t: Tree<L>)
    ensures PreorderAll(ts + [t]) == PreorderAll(ts) + Preorder(t)
  {
    if ts == [] {
      assert [t][1..] == [] && ts + [t] == [t];
    } else {
      PreorderAllSnoc(ts[1..], t);
      assert (ts + [t])[1..] == ts[1..] + [t];
    }
  }

  lemma CloseFlat<L>(stack: seq<Tree<L>>)
    requires |stack| >= 2
    ensures Flat(Close(stack)) == Flat(stack)
  {
    var n := |stack| - 2;
    var parent, last := stack[n], stack[n + 1];
    PreorderAllSnoc(parent.children, last);
    var upTo, parent' := stack[..n + 1], parent.(children := parent.children + [last]);
    assert Close(stack)[..n] == stack[..n] && upTo[..n] == stack[..n];
    var a, e, p, q := Flat(stack[..n]), [Entry(parent.frame, parent.height)], PreorderAll(parent.children), Preorder(last);
    assert Flat(Close(stack)) == a + Preorder(parent') == a + (e + (p + q));
    assert Flat(stack) == Flat(upTo) + q == (a + (e + p)) + q;
    Regroup(a, e, p, q);
  }

  lemma Regroup<T>(a: seq<T>, e: seq<T>, p: seq<T>, q: seq<T>)
    ensures a + (e + (p + q)) == (a + (e + p)) + q
  {
  }

  lemma {:induction false} AllNestedSnoc<L>(ts: seq<Tree<L>>, t: Tree<L>, d: nat)
    requires AllNested(ts, d) && Nested(t, d)
    ensures AllNested(ts + [t], d)
  {
    if ts == [] {
      assert ts + [t] == [t] && [t][1..] == [];
    } else {
      AllNestedSnoc(ts[1..], t, d);
      assert (ts + [t])[1..] == ts[1..] + [t];
    }
  }

  predicate StackNested<L>(stack: seq<Tree<L>>) {
    forall i :: 0 <= i < |stack| ==> Nested(stack[i], i + 1)
  }

  lemma CloseNested<L>(stack: seq<Tree<L>>)
    requires |stack| >= 2 && StackNested(stack)
    ensures StackNested(Close(stack))
  {
    var n := |stack| - 2;
    AllNestedSnoc(stack[n].children, stack[n + 1], n + 2);
  }

  /** `nest`. Nothing is lost or reordered, whatever the heights; and the result nests by height
      exactly when the heights are well formed, being then the only tree that does. */
  method Nest<L>(root: Tree<L>, inner: seq<Entry<L>>) returns (t: Tree<L>)
    requires root.children == [] && root.height == 1
    ensures Preorder(t) == [Entry(root.frame, 1)] + inner
    ensures Nested(t, 1) <==> WellFormed(inner)
    ensures forall u :: Nested(u, 1) && Preorder(u) == [Entry(root.frame, 1)] + inner ==> u == t
  {
    var stack := [root];
    assert stack[..0] == [] && [Entry(root.frame, 1)] + inner[..0] == [Entry(root.frame, 1)];
    for k := 0 to |inner|
      invariant |stack| >= 1
      invariant Flat(stack) == [Entry(root.frame, 1)] + inner[..k]
      invariant WellFormed(inner) ==> StackNested(stack) && |stack| == if k == 0 then 1 else inner[k - 1].height
    {
      var depth := inner[k].height;
      while |stack| >= depth && |stack| > 1
        invariant |stack| >= 1
        invariant Flat(stack) == [Entry(root.frame, 1)] + inner[..k]
        invariant WellFormed(inner) ==> StackNested(stack) && |stack| >= depth - 1
      {
        CloseFlat(stack);
        if WellFormed(inner) { CloseNested(stack); }
        stack := Close(stack);
      }
      var node := Tree(inner[k].frame, depth, []);
      assert (stack + [node])[..|stack|] == stack;
      assert Preorder(node) == [inner[k]];
      assert inner[..k + 1] == inner[..k] + [inner[k]];
      stack := stack + [node];
    }
    while |stack| > 1
      invariant |stack| >= 1
      invariant Flat(stack) == [Entry(root.frame, 1)] + inner
      invariant WellFormed(inner) ==> StackNested(stack)
    {
      CloseFlat(stack);
      if WellFormed(inner) { CloseNested(stack); }
      stack := Close(stack);
    }
    t := stack[0];
    assert stack[..0] == [] && Flat(stack) == Preorder(t);
    if Nested(t, 1) { NestedWellFormed(t, inner); }
    forall u | Nested(u, 1) && Preorder(u) == [Entry(root.frame, 1)] + inner ensures u == t {
      NestedWellFormed(u, inner);
      PreorderInjective(t, u, 1);
    }
  }

  // ----- pre-order and nesting determine each other -------------------------------------------

  /** Heights in the pre-order of a nested tree: `d` at the root, deeper after it, rising by at
      most one. */
  predicate Descends<L>(es: seq<Entry<L>>, d: nat) {
    && (forall i :: 0 <= i < |es| ==> es[i].height >= d)
    && (forall i :: 1 <= i < |es| ==> es[i].height <= es[i - 1].height + 1)
  }

  lemma {:induction false} NestedDescends<L>(t: Tree<L>, d: nat)
    requires Nested(t, d)
    ensures Descends(Preorder(t), d)
    ensures forall i :: 1 <= i < |Preorder(t)| ==> Preorder(t)[i].height > d
    decreases t, 0
  {
    AllNestedDescends(t.children, d + 1);
  }

  lemma {:induction false} AllNestedDescends<L>(ts: seq<Tree<L>>, d: nat)
    requires AllNested(ts, d)
    ensures Descends(PreorderAll(ts), d)
    ensures ts != [] ==> PreorderAll(ts)[0].height == d
    decreases ts, 0
  {
    if ts != [] {
      NestedDescends(ts[0], d);
      AllNestedDescends(ts[1..], d);
    }
  }

  lemma NestedWellFormed<L>(t: Tree<L>, inner: seq<Entry<L>>)
    requires Nested(t, 1) && Preorder(t) == [Entry(t.frame, 1)] + inner
    ensures WellFormed(inner)
  {
    NestedDescends(t, 1);
    var es := Preorder(t);
    forall i | 0 <= i < |inner| ensures 2 <= inner[i].height <= (if i == 0 then 1 else inner[i - 1].height) + 1 {
      assert inner[i] == es[i + 1] && es[i] == if i == 0 then Entry(t.frame, 1) else inner[i - 1];
    }
  }

  lemma {:induction false} PreorderInjective<L>(t: Tree<L>, u: Tree<L>, d: nat)
    requires Nested(t, d) && Nested(u, d) && Preorder(t) == Preorder(u)
    ensures t == u
    decreases t, 0
  {
    assert PreorderAll(t.children) == Preorder(t)[1..] == Preorder(u)[1..] == PreorderAll(u.children);
    PreorderAllInjective(t.children, u.children, d + 1);
  }

  lemma {:induction false} PreorderAllInjective<L>(ts: seq<Tree<L>>, us: seq<Tree<L>>, d: nat)
    requires AllNested(ts, d) && AllNested(us, d) && PreorderAll(ts) == PreorderAll(us)
    ensures ts == us
    decreases ts, 0
  {
    if ts != [] {
      AllNestedDescends(ts[1..], d);
      AllNestedDescends(us[1..], d);
      FirstEnds(ts[0], PreorderAll(ts[1..]), us[0], PreorderAll(us[1..]), d);
      FirstEnds(us[0], PreorderAll(us[1..]), ts[0], PreorderAll(ts[1..]), d);
      var n := |Preorder(ts[0])|;
      assert Preorder(ts[0]) == PreorderAll(ts)[..n] == PreorderAll(us)[..n] == Preorder(us[0]);
      assert PreorderAll(ts[1..]) == PreorderAll(ts)[n..] == PreorderAll(us)[n..] == PreorderAll(us[1..]);
      PreorderInjective(ts[0], us[0], d);
      PreorderAllInjective(ts[1..], us[1..], d);
      assert ts == [ts[0]] + ts[1..] && us == [us[0]] + us[1..];
    }
  }

  /** A subtree's stretch of the pre-order ends where the height falls back. */
  lemma FirstEnds<L>(t: Tree<L>, a: seq<Entry<L>>, u: Tree<L>, b: seq<Entry<L>>, d: nat)
    requires Nested(t, d) && Nested(u, d) && Preorder(t) + a == Preorder(u) + b
    requires a != [] ==> a[0].height <= d
    ensures |Preorder(u)| <= |Preorder(t)|
  {
    NestedDescends(u, d);
    var whole, n := Preorder(t) + a, |Preorder(t)|;
    assert n < |whole| ==> whole[n].height <= d;
    assert forall i :: 1 <= i < |Preorder(u)| ==> whole[i].height > d;
  }
}
