/** `compile_type`: classes become graph nodes through a cache that is filled before the node is,
    so that cycles close. A failed compile takes back only its own entry. */
module TypeCache {
  import opened Wrappers
  import opened Bytes
  import opened Codec
  import opened Lowering

  datatype AnnVariant = AnnVariant(tag: int, fields: seq<Ann>)

  datatype Class =
    | Dataclass(fields: seq<Ann>)
    | IntEnumClass(values: set<int>)
    | BorshEnumClass(variants: seq<AnnVariant>)

  type Classes = map<string, Class>

  /** The cache, the nodes allocated so far, and the next free node id. */
  datatype State = State(ids: map<string, nat>, heap: Graph, next: nat) {
    function Allot(name: string, def: TypeDef): State {
      State(ids[name := next], heap[next := def], next + 1)
    }

    function Fill(id: nat, def: TypeDef): State {
      this.(heap := heap[id := def])
    }

    function Drop(name: string): State {
      this.(ids := ids - {name})
    }
  }

  datatype Outcome<+T> = Done(st: State, value: T) | Raised(st: State)

  /** Nothing that was there has changed: neither a cache entry nor a node. */
  ghost predicate Extends(st: State, st': State) {
    && st.next <= st'.next
    && (forall n :: n in st.ids ==> n in st'.ids && st'.ids[n] == st.ids[n])
    && (forall i :: i in st.heap && i < st.next ==> i in st'.heap && st'.heap[i] == st.heap[i])
  }

  function CompileType(cs: Classes, st: State, name: string): (r: Outcome<nat>)
    ensures r.Done? ==> Extends(st, r.st)
    decreases cs.Keys - st.ids.Keys, 0
  {
    if name in st.ids then Done(st, st.ids[name])
    else if name !in cs then Raised(st)
    else
      assert name in cs.Keys - st.ids.Keys && name !in cs.Keys - st.ids[name := st.next].Keys;
      match cs[name]
      case IntEnumClass(values) => Done(st.Allot(name, IntEnumDef(values)), st.next)
      case Dataclass(fields) =>
        var r := CompileFields(cs, st.Allot(name, StructDef([])), fields);
        if r.Done? then Done(r.st.Fill(st.next, StructDef(r.value)), st.next) else Raised(r.st.Drop(name))
      case BorshEnumClass(variants) =>
        var r := CompileVariants(cs, st.Allot(name, BorshEnumDef([])), variants, st.next, []);
        if r.Done? then Done(r.st, st.next) else Raised(r.st.Drop(name))
  }

  /** Variants are added to the node one at a time, `done` being there already. */
  function CompileVariants(cs: Classes, st: State, variants: seq<AnnVariant>, id: nat, done: seq<Variant>): (r: Outcome<()>)
    requires id < st.next
    ensures r.Done? ==> st.next <= r.st.next
    ensures r.Done? ==> forall n :: n in st.ids ==> n in r.st.ids && r.st.ids[n] == st.ids[n]
    ensures r.Done? ==> forall i :: i in st.heap && i < st.next && i != id ==> i in r.st.heap && r.st.heap[i] == st.heap[i]
    decreases cs.Keys - st.ids.Keys, 3, variants
  {
    if variants == [] then Done(st, ())
    else
      var r := CompileFields(cs, st, variants[0].fields);
      if r.Raised? then Raised(r.st)
      else
        var done' := done + [Variant(variants[0].tag, r.value)];
        CompileVariants(cs, r.st.Fill(id, BorshEnumDef(done')), variants[1..], id, done')
  }

  function CompileFields(cs: Classes, st: State, anns: seq<Ann>): (r: Outcome<seq<Node>>)
    ensures r.Done? ==> Extends(st, r.st) && |r.value| == |anns|
    decreases cs.Keys - st.ids.Keys, 2, anns
  {
    if anns == [] then Done(st, [])
    else
      var first := CompileField(cs, st, anns[0]);
      if first.Raised? then Raised(first.st)
      else
        var rest := CompileFields(cs, first.st, anns[1..]);
        if rest.Raised? then Raised(rest.st) else Done(rest.st, [first.value] + rest.value)
  }

  function Wrap(f: Node -> Node, r: Outcome<Node>): Outcome<Node> {
    if r.Done? then Done(r.st, f(r.value)) else r
  }

  function CompileField(cs: Classes, st: State, ann: Ann): (r: Outcome<Node>)
    ensures r.Done? ==> Extends(st, r.st)
    decreases cs.Keys - st.ids.Keys, 1, ann
  {
    match ann
    case AnnotatedList(elem, n) => Wrap(e => FixedArrayNode(e, n), CompileField(cs, st, elem))
    case OptionalAnn(inner) => Wrap(e => OptionNode(e), CompileField(cs, st, inner))
    case OptAnn(inner) => Wrap(e => OptNode(e), CompileField(cs, st, inner))
    case ListAnn(elem) => Wrap(e => VecNode(e), CompileField(cs, st, elem))
    case ClassAnn(name) =>
      var r := CompileType(cs, st, name);
      if r.Done? then Done(r.st, Defined(r.value)) else Raised(r.st)
    case _ =>
      var node := CompileAnn(ann, map[]);
      if node.Some? then Done(st, node.value) else Raised(st)
  }

  // ----- what a cache entry should be ---------------------------------------------------------

  ghost predicate CompiledAll(anns: seq<Ann>, ids: map<string, nat>, nodes: seq<Node>) {
    |anns| == |nodes| && forall i :: 0 <= i < |anns| ==> CompileAnn(anns[i], ids) == Some(nodes[i])
  }

  ghost predicate CompiledVariants(variants: seq<AnnVariant>, ids: map<string, nat>, nodes: seq<Variant>) {
    && |variants| == |nodes|
    && forall i :: 0 <= i < |variants| ==>
         variants[i].tag == nodes[i].tag && CompiledAll(variants[i].fields, ids, nodes[i].fields)
  }

  ghost predicate CompiledClass(c: Class, ids: map<string, nat>, def: TypeDef) {
    match c
    case Dataclass(fields) => def.StructDef? && CompiledAll(fields, ids, def.fields)
    case IntEnumClass(values) => def == IntEnumDef(values)
    case BorshEnumClass(variants) => def.BorshEnumDef? && CompiledVariants(variants, ids, def.variants)
  }

  /** Every cached class outside `open` has its own node, and that node is the class compiled
      against the cache. */
  ghost predicate Faithful(cs: Classes, st: State, open: set<string>) {
    && open <= st.ids.Keys <= cs.Keys
    && (forall n :: n in st.ids ==> st.ids[n] < st.next && st.ids[n] in st.heap)
    && (forall m, n :: m in st.ids && n in st.ids && m != n ==> st.ids[m] != st.ids[n])
    && (forall n :: n in st.ids && n !in open ==> CompiledClass(cs[n], st.ids, st.heap[st.ids[n]]))
  }

  // ----- a successful compile keeps the cache faithful ----------------------------------------

  ghost predicate Grows(ids: map<string, nat>, ids': map<string, nat>) {
    forall n :: n in ids ==> n in ids' && ids'[n] == ids[n]
  }

  lemma {:induction false} AnnGrows(ann: Ann, ids: map<string, nat>, ids': map<string, nat>)
    requires Grows(ids, ids') && CompileAnn(ann, ids).Some?
    ensures CompileAnn(ann, ids') == CompileAnn(ann, ids)
  {
    match ann
    case AnnotatedList(elem, _) => AnnGrows(elem, ids, ids');
    case OptionalAnn(inner) => AnnGrows(inner, ids, ids');
    case OptAnn(inner) => AnnGrows(inner, ids, ids');
    case ListAnn(elem) => AnnGrows(elem, ids, ids');
    case _ =>
  }

  lemma AllGrow(anns: seq<Ann>, ids: map<string, nat>, ids': map<string, nat>, nodes: seq<Node>)
    requires Grows(ids, ids') && CompiledAll(anns, ids, nodes)
    ensures CompiledAll(anns, ids', nodes)
  {
    forall i | 0 <= i < |anns| ensures CompileAnn(anns[i], ids') == Some(nodes[i]) {
      AnnGrows(anns[i], ids, ids');
    }
  }

  lemma VariantsGrow(variants: seq<AnnVariant>, ids: map<string, nat>, ids': map<string, nat>, nodes: seq<Variant>)
    requires Grows(ids, ids') && CompiledVariants(variants, ids, nodes)
    ensures CompiledVariants(variants, ids', nodes)
  {
    forall i | 0 <= i < |variants| ensures CompiledAll(variants[i].fields, ids', nodes[i].fields) {
      AllGrow(variants[i].fields, ids, ids', nodes[i].fields);
    }
  }

  lemma ClassGrows(c: Class, ids: map<string, nat>, ids': map<string, nat>, def: TypeDef)
    requires Grows(ids, ids') && CompiledClass(c, ids, def)
    ensures CompiledClass(c, ids', def)
  {
    match c
    case Dataclass(fields) => AllGrow(fields, ids, ids', def.fields);
    case IntEnumClass(_) =>
    case BorshEnumClass(variants) => VariantsGrow(variants, ids, ids', def.variants);
  }

  /** Opening a class: its node is there, still empty. */
  lemma AllotFaithful(cs: Classes, st: State, name: string, def: TypeDef, open: set<string>)
    requires Faithful(cs, st, open) && name in cs && name !in st.ids
    ensures Faithful(cs, st.Allot(name, def), open + {name})
  {
    var st' := st.Allot(name, def);
    forall n | n in st'.ids && n !in open + {name} ensures CompiledClass(cs[n], st'.ids, st'.heap[st'.ids[n]]) {
      ClassGrows(cs[n], st.ids, st'.ids, st.heap[st.ids[n]]);
    }
  }

  /** Closing a class: its node has been filled with what its annotations compile to. */
  lemma FillFaithful(cs: Classes, st: State, name: string, def: TypeDef, open: set<string>)
    requires Faithful(cs, st, open + {name}) && name !in open && CompiledClass(cs[name], st.ids, def)
    ensures Faithful(cs, st.Fill(st.ids[name], def), open)
  {
  }

  /** An open class may have its node changed at will. */
  lemma FillOpen(cs: Classes, st: State, name: string, def: TypeDef, open: set<string>)
    requires Faithful(cs, st, open) && name in open
    ensures Faithful(cs, st.Fill(st.ids[name], def), open)
  {
  }

  lemma MoveHead<T>(a: seq<T>, b: seq<T>)
    requires b != []
    ensures a + [b[0]] + b[1..] == a + b
  {
  }

  lemma SnocVariant(before: seq<AnnVariant>, done: seq<Variant>, next: AnnVariant, nodes: seq<Node>, ids: map<string, nat>)
    requires CompiledVariants(before, ids, done) && CompiledAll(next.fields, ids, nodes)
    ensures CompiledVariants(before + [next], ids, done + [Variant(next.tag, nodes)])
  {
  }

  lemma EnumCompiled(values: set<int>, ids: map<string, nat>)
    ensures CompiledClass(IntEnumClass(values), ids, IntEnumDef(values))
  {
  }

  lemma NoVariants(ids: map<string, nat>)
    ensures CompiledVariants([], ids, [])
  {
  }

  lemma StructCompiled(fields: seq<Ann>, ids: map<string, nat>, nodes: seq<Node>)
    requires CompiledAll(fields, ids, nodes)
    ensures CompiledClass(Dataclass(fields), ids, StructDef(nodes))
  {
  }

  lemma {:induction false} CompileTypeFaithful(cs: Classes, st: State, name: string, open: set<string>)
    requires Faithful(cs, st, open) && CompileType(cs, st, name).Done?
    ensures var r := CompileType(cs, st, name);
            Faithful(cs, r.st, open) && name in r.st.ids && r.st.ids[name] == r.value
    decreases cs.Keys - st.ids.Keys, 0
  {
    if name !in st.ids {
      hide Faithful, CompiledClass, CompiledAll, CompiledVariants;
      assert name in cs.Keys - st.ids.Keys && name !in cs.Keys - st.ids[name := st.next].Keys;
      match cs[name]
      case IntEnumClass(values) => IntEnumFaithful(cs, st, name, values, open);
      case Dataclass(fields) => DataclassFaithful(cs, st, name, fields, open);
      case BorshEnumClass(variants) =>
        AllotFaithful(cs, st, name, BorshEnumDef([]), open);
        NoVariants(st.Allot(name, BorshEnumDef([])).ids);
        CompileVariantsFaithful(cs, st.Allot(name, BorshEnumDef([])), variants, name, [], [], open);
    }
  }

  lemma IntEnumFaithful(cs: Classes, st: State, name: string, values: set<int>, open: set<string>)
    requires Faithful(cs, st, open) && name !in st.ids && name in cs && cs[name] == IntEnumClass(values)
    ensures var r := CompileType(cs, st, name);
            Faithful(cs, r.st, open) && name in r.st.ids && r.st.ids[name] == r.value
  {
    assert name !in open;
    hide Faithful, CompiledClass, CompiledAll, CompiledVariants;
    var st1 := st.Allot(name, IntEnumDef(values));
    EnumCompiled(values, st1.ids);
    AllotFaithful(cs, st, name, IntEnumDef(values), open);
    FillFaithful(cs, st1, name, IntEnumDef(values), open);
    assert st1.Fill(st.next, IntEnumDef(values)) == st1;
  }

  lemma {:induction false} DataclassFaithful(cs: Classes, st: State, name: string, fields: seq<Ann>, open: set<string>)
    requires Faithful(cs, st, open) && name !in st.ids && name in cs && cs[name] == Dataclass(fields) && CompileType(cs, st, name).Done?
    ensures var r := CompileType(cs, st, name);
            Faithful(cs, r.st, open) && name in r.st.ids && r.st.ids[name] == r.value
    decreases cs.Keys - st.ids[name := st.next].Keys, 4
  {
    var st1 := st.Allot(name, StructDef([]));
    AllotFaithful(cs, st, name, StructDef([]), open);
    assert name !in open;
    hide Faithful, CompiledClass, CompiledAll;
    CompileFieldsFaithful(cs, st1, fields, open + {name});
    var r := CompileFields(cs, st1, fields);
    StructCompiled(fields, r.st.ids, r.value);
    FillFaithful(cs, r.st, name, StructDef(r.value), open);
  }

  lemma {:induction false} CompileVariantsFaithful(cs: Classes, st: State, variants: seq<AnnVariant>, name: string,
                                                   before: seq<AnnVariant>, done: seq<Variant>, open: set<string>)
    requires Faithful(cs, st, open + {name}) && name !in open && name in st.ids
    requires cs[name] == BorshEnumClass(before + variants) && st.heap[st.ids[name]] == BorshEnumDef(done)
    requires CompiledVariants(before, st.ids, done)
    requires CompileVariants(cs, st, variants, st.ids[name], done).Done?
    ensures var r := CompileVariants(cs, st, variants, st.ids[name], done);
            Faithful(cs, r.st, open) && name in r.st.ids && r.st.ids[name] == st.ids[name]
    decreases cs.Keys - st.ids.Keys, 3, variants
  {
    if variants == [] {
      assert before + variants == before;
      FillFaithful(cs, st, name, BorshEnumDef(done), open);
      assert st.Fill(st.ids[name], BorshEnumDef(done)) == st;
    } else {
      hide CompiledVariants, CompiledClass, CompiledAll;
      var r := CompileFields(cs, st, variants[0].fields);
      CompileFieldsFaithful(cs, st, variants[0].fields, open + {name});
      var done' := done + [Variant(variants[0].tag, r.value)];
      var before' := before + [variants[0]];
      VariantsGrow(before, st.ids, r.st.ids, done);
      SnocVariant(before, done, variants[0], r.value, r.st.ids);
      FillOpen(cs, r.st, name, BorshEnumDef(done'), open + {name});
      MoveHead(before, variants);
      CompileVariantsFaithful(cs, r.st.Fill(st.ids[name], BorshEnumDef(done')), variants[1..], name, before', done', open);
    }
  }

  lemma {:induction false} CompileFieldsFaithful(cs: Classes, st: State, anns: seq<Ann>, open: set<string>)
    requires Faithful(cs, st, open) && CompileFields(cs, st, anns).Done?
    ensures var r := CompileFields(cs, st, anns); Faithful(cs, r.st, open) && CompiledAll(anns, r.st.ids, r.value)
    decreases cs.Keys - st.ids.Keys, 2, anns
  {
    if anns != [] {
      hide Faithful, CompileAnn, CompileField, CompiledAll;
      var first := CompileField(cs, st, anns[0]);
      CompileFieldFaithful(cs, st, anns[0], open);
      CompileFieldsFaithful(cs, first.st, anns[1..], open);
      var rest := CompileFields(cs, first.st, anns[1..]);
      AnnGrows(anns[0], first.st.ids, rest.st.ids);
      AnnsCons(anns, rest.st.ids, first.value, rest.value);
    } else {
      NoAnns(st.ids);
    }
  }

  lemma AnnsCons(anns: seq<Ann>, ids: map<string, nat>, node: Node, nodes: seq<Node>)
    requires anns != [] && CompileAnn(anns[0], ids) == Some(node) && CompiledAll(anns[1..], ids, nodes)
    ensures CompiledAll(anns, ids, [node] + nodes)
  {
    hide CompileAnn;
    forall i | 0 <= i < |anns| ensures CompileAnn(anns[i], ids) == Some(([node] + nodes)[i]) {
      if i > 0 { assert anns[i] == anns[1..][i - 1]; }
    }
  }

  lemma NoAnns(ids: map<string, nat>)
    ensures CompiledAll([], ids, [])
  {
  }

  lemma {:induction false} CompileFieldFaithful(cs: Classes, st: State, ann: Ann, open: set<string>)
    requires Faithful(cs, st, open) && CompileField(cs, st, ann).Done?
    ensures var r := CompileField(cs, st, ann); Faithful(cs, r.st, open) && CompileAnn(ann, r.st.ids) == Some(r.value)
    decreases cs.Keys - st.ids.Keys, 1, ann
  {
    hide Faithful, AliasNode;
    match ann
    case AnnotatedList(elem, _) => CompileFieldFaithful(cs, st, elem, open);
    case OptionalAnn(inner) => CompileFieldFaithful(cs, st, inner, open);
    case OptAnn(inner) => CompileFieldFaithful(cs, st, inner, open);
    case ListAnn(elem) => CompileFieldFaithful(cs, st, elem, open);
    case ClassAnn(name) => CompileTypeFaithful(cs, st, name, open);
    case _ =>
  }

  // ----- exactly which classes compile --------------------------------------------------------

  /** The annotation is supported and names only classes of `names`. */
  predicate Supported(ann: Ann, names: set<string>) {
    match ann
    case AnnotatedList(elem, _) => Supported(elem, names)
    case OptionalAnn(inner) => Supported(inner, names)
    case OptAnn(inner) => Supported(inner, names)
    case ListAnn(elem) => Supported(elem, names)
    case ClassAnn(name) => name in names
    case Alias(name) => name in ALIASES
    case BoolAnn => true
    case StrAnn => true
    case BytesAnn => true
    case AnnotatedBytes(_) => true
    case _ => false
  }

  /** The names that stand for a width, and `pubkey`. */
  const ALIASES: set<string> :=
    {"u8", "u16", "u32", "u64", "u128", "u256", "i8", "i16", "i32", "i64", "i128", "i256", "f32", "f64", "pubkey"}

  predicate AllSupported(anns: seq<Ann>, names: set<string>) {
    forall i :: 0 <= i < |anns| ==> Supported(anns[i], names)
  }

  /** Every class of `names` uses only supported annotations over `names`. */
  ghost predicate Closed(cs: Classes, names: set<string>) {
    && names <= cs.Keys
    && forall n :: n in names ==>
         match cs[n]
         case Dataclass(fields) => AllSupported(fields, names)
         case IntEnumClass(_) => true
         case BorshEnumClass(variants) => forall i :: 0 <= i < |variants| ==> AllSupported(variants[i].fields, names)
  }

  lemma {:induction false} SupportedIff(ann: Ann, ids: map<string, nat>)
    ensures Supported(ann, ids.Keys) <==> CompileAnn(ann, ids).Some?
  {
    match ann
    case AnnotatedList(elem, _) => SupportedIff(elem, ids);
    case OptionalAnn(inner) => SupportedIff(inner, ids);
    case OptAnn(inner) => SupportedIff(inner, ids);
    case ListAnn(elem) => SupportedIff(elem, ids);
    case _ =>
  }

  lemma CompiledAllSupported(anns: seq<Ann>, ids: map<string, nat>, nodes: seq<Node>)
    requires CompiledAll(anns, ids, nodes)
    ensures AllSupported(anns, ids.Keys)
  {
    forall i | 0 <= i < |anns| ensures Supported(anns[i], ids.Keys) { SupportedIff(anns[i], ids); }
  }

  /** The classes of a faithful cache are closed. */
  lemma FaithfulClosed(cs: Classes, st: State)
    requires Faithful(cs, st, {})
    ensures Closed(cs, st.ids.Keys)
  {
    forall n | n in st.ids
      ensures match cs[n]
              case Dataclass(fields) => AllSupported(fields, st.ids.Keys)
              case IntEnumClass(_) => true
              case BorshEnumClass(variants) => forall i :: 0 <= i < |variants| ==> AllSupported(variants[i].fields, st.ids.Keys)
    {
      var def := st.heap[st.ids[n]];
      match cs[n]
      case Dataclass(fields) => CompiledAllSupported(fields, st.ids, def.fields);
      case IntEnumClass(_) =>
      case BorshEnumClass(variants) =>
        forall i | 0 <= i < |variants| ensures AllSupported(variants[i].fields, st.ids.Keys) {
          CompiledAllSupported(variants[i].fields, st.ids, def.variants[i].fields);
        }
    }
  }

  lemma {:induction false} ClosedTypeCompiles(cs: Classes, st: State, name: string, names: set<string>)
    requires Closed(cs, names) && name in names
    ensures CompileType(cs, st, name).Done?
    decreases cs.Keys - st.ids.Keys, 0
  {
    if name !in st.ids {
      assert name in cs.Keys - st.ids.Keys && name !in cs.Keys - st.ids[name := st.next].Keys;
      match cs[name]
      case IntEnumClass(_) =>
      case Dataclass(fields) => SupportedFieldsCompile(cs, st.Allot(name, StructDef([])), fields, names);
      case BorshEnumClass(variants) =>
        SupportedVariantsCompile(cs, st.Allot(name, BorshEnumDef([])), variants, st.next, [], names);
    }
  }

  lemma {:induction false} SupportedVariantsCompile(cs: Classes, st: State, variants: seq<AnnVariant>, id: nat, done: seq<Variant>, names: set<string>)
    requires Closed(cs, names) && id < st.next
    requires forall i :: 0 <= i < |variants| ==> AllSupported(variants[i].fields, names)
    ensures CompileVariants(cs, st, variants, id, done).Done?
    decreases cs.Keys - st.ids.Keys, 3, variants
  {
    if variants != [] {
      SupportedFieldsCompile(cs, st, variants[0].fields, names);
      var r := CompileFields(cs, st, variants[0].fields);
      var done' := done + [Variant(variants[0].tag, r.value)];
      SupportedVariantsCompile(cs, r.st.Fill(id, BorshEnumDef(done')), variants[1..], id, done', names);
    }
  }

  lemma {:induction false} SupportedFieldsCompile(cs: Classes, st: State, anns: seq<Ann>, names: set<string>)
    requires Closed(cs, names) && AllSupported(anns, names)
    ensures CompileFields(cs, st, anns).Done?
    decreases cs.Keys - st.ids.Keys, 2, anns
  {
    if anns != [] {
      SupportedFieldCompiles(cs, st, anns[0], names);
      SupportedFieldsCompile(cs, CompileField(cs, st, anns[0]).st, anns[1..], names);
    }
  }

  lemma {:induction false} SupportedFieldCompiles(cs: Classes, st: State, ann: Ann, names: set<string>)
    requires Closed(cs, names) && Supported(ann, names)
    ensures CompileField(cs, st, ann).Done?
    decreases cs.Keys - st.ids.Keys, 1, ann
  {
    match ann
    case AnnotatedList(elem, _) => SupportedFieldCompiles(cs, st, elem, names);
    case OptionalAnn(inner) => SupportedFieldCompiles(cs, st, inner, names);
    case OptAnn(inner) => SupportedFieldCompiles(cs, st, inner, names);
    case ListAnn(elem) => SupportedFieldCompiles(cs, st, elem, names);
    case ClassAnn(name) => ClosedTypeCompiles(cs, st, name, names);
    case _ =>
  }

  /** The class lies in a closed set of supported classes. */
  ghost predicate InClosed(cs: Classes, name: string) {
    exists names :: Closed(cs, names) && name in names
  }

  /** From a faithful cache, a class compiles exactly when it lies in a closed set of supported
      classes, however they refer to one another; and the cache stays faithful. */
  lemma FaithfulCompileIff(cs: Classes, st: State, name: string)
    requires Faithful(cs, st, {})
    ensures CompileType(cs, st, name).Done? <==> InClosed(cs, name)
    ensures CompileType(cs, st, name).Done? ==> Faithful(cs, CompileType(cs, st, name).st, {})
  {
    var r := CompileType(cs, st, name);
    if r.Done? {
      CompileTypeFaithful(cs, st, name, {});
      FaithfulClosed(cs, r.st);
      assert Closed(cs, r.st.ids.Keys) && name in r.st.ids.Keys;
    }
    if names :| Closed(cs, names) && name in names { ClosedTypeCompiles(cs, st, name, names); }
  }

  // ----- a failed compile leaves a stale node behind ------------------------------------------

  const CYCLE: Classes := map[
    "A" := Dataclass([ClassAnn("B"), UnionAnn]),
    "B" := Dataclass([ClassAnn("A")])
  ]

  const EMPTY: State := State(map[], map[], 0)

  lemma FirstA() returns (failed: State)
    ensures CompileType(CYCLE, EMPTY, "A") == Raised(failed)
    ensures failed.ids == map["B" := 1] && failed.heap == map[0 := StructDef([]), 1 := StructDef([Defined(0)])]
  {
    var a := EMPTY.Allot("A", StructDef([]));
    var ab := a.Allot("B", StructDef([]));
    assert CompileField(CYCLE, ab, ClassAnn("A")) == Done(ab, Defined(0));
    assert [Defined(0)] + [] == [Defined(0)];
    assert CompileFields(CYCLE, ab, [ClassAnn("A")][1..]) == Done(ab, []);
    assert CompileFields(CYCLE, ab, [ClassAnn("A")]) == Done(ab, [Defined(0)]);
    var ab' := ab.Fill(1, StructDef([Defined(0)]));
    assert CompileType(CYCLE, a, "B") == Done(ab', 1);
    assert CompileField(CYCLE, ab', UnionAnn) == Raised(ab');
    var fields := [ClassAnn("B"), UnionAnn];
    assert CompileFields(CYCLE, ab', fields[1..]) == Raised(ab');
    assert CompileFields(CYCLE, a, fields) == Raised(ab');
    failed := ab'.Drop("A");
  }

  lemma FirstB()
    ensures CompileType(CYCLE, EMPTY, "B").Raised?
  {
    var b := EMPTY.Allot("B", StructDef([]));
    var ba := b.Allot("A", StructDef([]));
    var fields := [ClassAnn("B"), UnionAnn];
    assert CompileField(CYCLE, ba, ClassAnn("B")) == Done(ba, Defined(0));
    assert CompileField(CYCLE, ba, UnionAnn) == Raised(ba);
    assert CompileFields(CYCLE, ba, fields[1..]) == Raised(ba);
    assert CompileFields(CYCLE, ba, fields) == Raised(ba);
    assert CompileField(CYCLE, b, ClassAnn("A")).Raised?;
    assert CompileFields(CYCLE, b, [ClassAnn("A")]).Raised?;
  }

  /** `B` refers to `A`, and `A` has a field no node exists for. Asked first, `B` is refused. But
      once `A` has been tried, `B` is cached for good around `A`'s abandoned empty node, and a
      value of `B` is written as no bytes at all. */
  lemma StaleAfterFailure()
    ensures CompileType(CYCLE, EMPTY, "B").Raised?
    ensures var failed := CompileType(CYCLE, EMPTY, "A");
            && failed.Raised?
            && CompileType(CYCLE, failed.st, "B") == Done(failed.st, 1)
            && Write(failed.st.heap, Defined(1), VStruct(1, [VStruct(0, [])])) == Some([])
            && !Faithful(CYCLE, failed.st, {})
  {
    FirstB();
    var failed := FirstA();
    StaleBytes(failed.heap);
    assert CompileAnn(ClassAnn("A"), failed.ids) == None;
  }

  lemma StaleBytes(heap: Graph)
    requires heap == map[0 := StructDef([]), 1 := StructDef([Defined(0)])]
    ensures Write(heap, Defined(1), VStruct(1, [VStruct(0, [])])) == Some([])
  {
    var none: seq<Byte> := [];
    var nodes, vs := [Defined(0)], [VStruct(0, [])];
    assert WriteAll(heap, nodes[1..], vs[1..]) == Some(none);
    assert WriteAll(heap, [], []) == Some(none);
    assert Write(heap, Defined(0), vs[0]) == Some(none);
    assert none + none == none;
    assert WriteAll(heap, nodes, vs) == Some(none);
  }
}
