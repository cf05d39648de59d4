/** The type cache as it runs: a dictionary and nodes filled in place. */
module TypeCacheMachine {
  import opened Wrappers
  import opened Codec
  import opened Lowering
  import TC = TypeCache

  class Compiler {
    const classes: TC.Classes
    var ids: map<string, nat>
    var heap: Graph
    var next: nat

    constructor (classes: TC.Classes)
      ensures this.classes == classes && Now() == TC.EMPTY
    {
      this.classes := classes;
      ids, heap, next := map[], map[], 0;
    }

    ghost function Now(): TC.State
      reads this
    {
      TC.State(ids, heap, next)
    }

    /** The call did what the state function says, and answered or raised accordingly. */
    ghost predicate Matches<T>(spec: TC.Outcome<T>, r: Option<T>)
      reads this
    {
      Now() == spec.st && r == if spec.Done? then Some(spec.value) else None
    }

    method CompileType(name: string) returns (r: Option<nat>)
      modifies this
      ensures Matches(TC.CompileType(classes, old(Now()), name), r)
      decreases classes.Keys - ids.Keys, 0
    {
      if name in ids { return Some(ids[name]); }
      if name !in classes { return None; }
      assert name in classes.Keys - ids.Keys && name !in classes.Keys - ids[name := next].Keys;
      var id := next;
      ids, next := ids[name := id], next + 1;
      match classes[name]
      case IntEnumClass(values) =>
        heap := heap[id := IntEnumDef(values)];
        r := Some(id);
      case Dataclass(fields) =>
        heap := heap[id := StructDef([])];
        var nodes := CompileFields(fields);
        if nodes.Some? {
          heap := heap[id := StructDef(nodes.value)];
          r := Some(id);
        } else {
          ids := ids - {name};
          r := None;
        }
      case BorshEnumClass(variants) =>
        heap := heap[id := BorshEnumDef([])];
        var ok := CompileVariants(variants, id);
        if ok {
          r := Some(id);
        } else {
          ids := ids - {name};
          r := None;
        }
    }

    method CompileVariants(variants: seq<TC.AnnVariant>, id: nat) returns (ok: bool)
      requires id < next
      modifies this
      ensures Matches(TC.CompileVariants(classes, old(Now()), variants, id, []), if ok then Some(()) else None)
      decreases classes.Keys - ids.Keys, 3
    {
      var done: seq<Variant> := [];
      assert variants[0..] == variants;
      for i := 0 to |variants|
        invariant id < next && classes.Keys - ids.Keys <= classes.Keys - old(ids).Keys
        invariant TC.CompileVariants(classes, old(Now()), variants, id, []) ==
                  TC.CompileVariants(classes, Now(), variants[i..], id, done)
      {
        assert variants[i..][0] == variants[i] && variants[i..][1..] == variants[i + 1..];
        var nodes := CompileFields(variants[i].fields);
        if nodes.None? { return false; }
        done := done + [Variant(variants[i].tag, nodes.value)];
        heap := heap[id := BorshEnumDef(done)];
      }
      ok := true;
    }

    method CompileFields(anns: seq<Ann>) returns (r: Option<seq<Node>>)
      modifies this
      ensures Matches(TC.CompileFields(classes, old(Now()), anns), r)
      decreases classes.Keys - ids.Keys, 2
    {
      var nodes: seq<Node> := [];
      assert anns[0..] == anns;
      BehindNothing(TC.CompileFields(classes, Now(), anns));
      for i := 0 to |anns|
        invariant classes.Keys - ids.Keys <= classes.Keys - old(ids).Keys
        invariant TC.CompileFields(classes, old(Now()), anns) ==
                  Behind(nodes, TC.CompileFields(classes, Now(), anns[i..]))
      {
        assert anns[i..][0] == anns[i] && anns[i..][1..] == anns[i + 1..];
        var node := CompileField(anns[i]);
        if node.None? { return None; }
        BehindBehind(nodes, [node.value], TC.CompileFields(classes, Now(), anns[i + 1..]));
        nodes := nodes + [node.value];
      }
      assert anns[|anns|..] == [] && nodes + [] == nodes;
      r := Some(nodes);
    }

    method CompileField(ann: Ann) returns (r: Option<Node>)
      modifies this
      ensures Matches(TC.CompileField(classes, old(Now()), ann), r)
      decreases classes.Keys - ids.Keys, 1, ann
    {
      match ann
      case AnnotatedList(elem, n) =>
        var e := CompileField(elem);
        r := if e.Some? then Some(FixedArrayNode(e.value, n)) else None;
      case OptionalAnn(inner) =>
        var e := CompileField(inner);
        r := if e.Some? then Some(OptionNode(e.value)) else None;
      case OptAnn(inner) =>
        var e := CompileField(inner);
        r := if e.Some? then Some(OptNode(e.value)) else None;
      case ListAnn(elem) =>
        var e := CompileField(elem);
        r := if e.Some? then Some(VecNode(e.value)) else None;
      case ClassAnn(name) =>
        var id := CompileType(name);
        r := if id.Some? then Some(Defined(id.value)) else None;
      case _ => r := CompileAnn(ann, map[]);
    }
  }

  ghost function Behind(done: seq<Node>, rest: TC.Outcome<seq<Node>>): TC.Outcome<seq<Node>> {
    if rest.Done? then TC.Done(rest.st, done + rest.value) else rest
  }

  lemma BehindNothing(rest: TC.Outcome<seq<Node>>)
    ensures Behind([], rest) == rest
  {
    if rest.Done? { assert [] + rest.value == rest.value; }
  }

  lemma BehindBehind(a: seq<Node>, b: seq<Node>, rest: TC.Outcome<seq<Node>>)
    ensures Behind(a, Behind(b, rest)) == Behind(a + b, rest)
  {
    if rest.Done? { assert a + (b + rest.value) == a + b + rest.value; }
  }
}
