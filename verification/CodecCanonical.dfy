/** Decoding is canonical: the reader accepts exactly the encodings of the values of the type,
    unless an `OptionNode` stands directly around another nullable node. */
module CodecCanonical {
  import opened Wrappers
  import opened Bytes
  import opened Codec
  import opened CodecTheorems
  import Utf8

  /** No `OptionNode` directly wraps a nullable node. */
  predicate PlainNode(node: Node) {
    match node
    case OptionNode(inner) => !inner.Nullable() && PlainNode(inner)
    case OptNode(inner) => PlainNode(inner)
    case VecNode(elem) => PlainNode(elem)
    case FixedArrayNode(elem, _) => PlainNode(elem)
    case _ => true
  }

  predicate PlainNodes(nodes: seq<Node>) {
    forall i :: 0 <= i < |nodes| ==> PlainNode(nodes[i])
  }

  predicate PlainDef(def: TypeDef) {
    match def
    case StructDef(fields) => PlainNodes(fields)
    case IntEnumDef(_) => true
    case BorshEnumDef(variants) => forall i :: 0 <= i < |variants| ==> PlainNodes(variants[i].fields)
  }

  predicate Plain(g: Graph) {
    forall id :: id in g ==> PlainDef(g[id])
  }

  // ----- what is read is a value of the type --------------------------------------------------

  lemma LeafTyped(node: Node, buf: seq<Byte>, pos: nat)
    requires pos <= |buf| && !node.Composite() && ReadLeaf(node, buf, pos).Ok?
    ensures var r := ReadLeaf(node, buf, pos);
            WriteLeaf(node, r.value) == Some(buf[pos..r.pos]) && (node.BoolNode? ==> r.value.VBool?)
  {
    hide FromLE, ToLE, IntFromLE, IntToLE, Utf8.Decode, Utf8.Encode, Prefixed;
    match node
    case IntNode(n, s) => IntCanonical(buf[pos..pos + n], s);
    case StrNode =>
      var n := FromLE(buf[pos..pos + 4]);
      Utf8.Canonical(buf[pos + 4..pos + 4 + n]);
      PrefixSplit(buf, pos, n);
    case BytesNode => PrefixSplit(buf, pos, FromLE(buf[pos..pos + 4]));
    case BoolNode => SliceOne(buf, pos);
    case _ =>
  }

  lemma PrefixSplit(buf: seq<Byte>, pos: nat, n: nat)
    requires pos + 4 + n <= |buf| && n == FromLE(buf[pos..pos + 4])
    ensures n < Pow256(4) && Prefixed(buf[pos + 4..pos + 4 + n]) == Some(buf[pos..pos + 4 + n])
  {
    ToFromLE(buf[pos..pos + 4]);
    assert buf[pos..pos + 4] + buf[pos + 4..pos + 4 + n] == buf[pos..pos + 4 + n];
  }

  lemma {:induction false} ReadTyped(g: Graph, node: Node, buf: seq<Byte>, pos: nat, depth: nat)
    requires pos <= |buf| && depth <= MAX_DECODE_DEPTH && Read(g, node, buf, pos, depth).Ok?
    ensures WellTyped(g, node, Read(g, node, buf, pos, depth).value)
    decreases MAX_DECODE_DEPTH - depth, node, 0
  {
    hide FromLE, MinWire, WriteLeaf, ReadLeaf;
    if !node.Composite() {
      LeafTyped(node, buf, pos);
    } else {
      match node
      case OptionNode(inner) => if buf[pos] == 1 { ReadTyped(g, inner, buf, pos + 1, depth + 1); }
      case OptNode(inner) => if buf[pos] == 1 { ReadTyped(g, inner, buf, pos + 1, depth + 1); }
      case VecNode(elem) =>
        var n := ReadLen(buf, pos, MinWire(g, elem, {}));
        ReadAllTyped(g, Repeat(elem, n.value), buf, n.pos, depth + 1);
      case FixedArrayNode(elem, n) => ReadAllTyped(g, Repeat(elem, n), buf, pos, depth + 1);
      case Defined(id) =>
        match g[id] {
          case StructDef(fields) => ReadAllTyped(g, fields, buf, pos, depth + 1);
          case IntEnumDef(_) =>
          case BorshEnumDef(variants) =>
            ReadAllTyped(g, Lookup(variants, buf[pos]).value, buf, pos + 1, depth + 1);
        }
    }
  }

  lemma {:induction false} ReadAllTyped(g: Graph, nodes: seq<Node>, buf: seq<Byte>, pos: nat, depth: nat)
    requires pos <= |buf| && depth <= MAX_DECODE_DEPTH && ReadAll(g, nodes, buf, pos, depth).Ok?
    ensures AllTyped(g, nodes, ReadAll(g, nodes, buf, pos, depth).value)
    decreases MAX_DECODE_DEPTH - depth, nodes, 0
  {
    if nodes != [] {
      hide WellTyped;
      var first := Read(g, nodes[0], buf, pos, depth);
      ReadTyped(g, nodes[0], buf, pos, depth);
      ReadAllTyped(g, nodes[1..], buf, first.pos, depth);
      var rest := ReadAll(g, nodes[1..], buf, first.pos, depth).value;
      assert ([first.value] + rest)[1..] == rest;
    }
  }

  // ----- writing what was read ----------------------------------------------------------------

  /** Reading yields `None` only at a nullable node. */
  lemma NotNone(g: Graph, node: Node, buf: seq<Byte>, pos: nat, depth: nat)
    requires pos <= |buf| && depth <= MAX_DECODE_DEPTH && Read(g, node, buf, pos, depth).Ok?
    requires !node.Nullable()
    ensures Read(g, node, buf, pos, depth).value != VNone
  {
  }

  lemma SliceOne(buf: seq<Byte>, pos: nat)
    requires pos < |buf|
    ensures buf[pos..pos + 1] == [buf[pos]]
  {
  }

  lemma SliceCons(buf: seq<Byte>, i: nat, j: nat, k: nat)
    requires i <= j <= k <= |buf|
    ensures buf[i..j] + buf[j..k] == buf[i..k]
  {
  }

  lemma {:induction false} ReadCanonical(g: Graph, node: Node, buf: seq<Byte>, pos: nat, depth: nat)
    requires Plain(g) && PlainNode(node)
    requires pos <= |buf| && depth <= MAX_DECODE_DEPTH && Read(g, node, buf, pos, depth).Ok?
    ensures var r := Read(g, node, buf, pos, depth); Write(g, node, r.value) == Some(buf[pos..r.pos])
    decreases MAX_DECODE_DEPTH - depth, node, 1
  {
    if !node.Composite() {
      LeafTyped(node, buf, pos);
    } else {
      match node
      case OptionNode(inner) => OptionCanonical(g, node, buf, pos, depth);
      case OptNode(inner) => OptionCanonical(g, node, buf, pos, depth);
      case VecNode(elem) => VecCanonical(g, elem, buf, pos, depth);
      case FixedArrayNode(elem, n) => ReadAllCanonical(g, Repeat(elem, n), buf, pos, depth + 1);
      case Defined(id) => DefinedCanonical(g, id, buf, pos, depth);
    }
  }

  lemma {:induction false} VecCanonical(g: Graph, elem: Node, buf: seq<Byte>, pos: nat, depth: nat)
    requires Plain(g) && PlainNode(elem)
    requires pos <= |buf| && depth < MAX_DECODE_DEPTH && Read(g, VecNode(elem), buf, pos, depth).Ok?
    ensures var r := Read(g, VecNode(elem), buf, pos, depth);
            Write(g, VecNode(elem), r.value) == Some(buf[pos..r.pos])
    decreases MAX_DECODE_DEPTH - depth, VecNode(elem), 0
  {
    hide FromLE, ToLE, MinWire;
    var n := ReadLen(buf, pos, MinWire(g, elem, {}));
    ReadAllCanonical(g, Repeat(elem, n.value), buf, n.pos, depth + 1);
    ToFromLE(buf[pos..pos + 4]);
    SliceCons(buf, pos, pos + 4, Read(g, VecNode(elem), buf, pos, depth).pos);
  }

  lemma {:induction false} DefinedCanonical(g: Graph, id: nat, buf: seq<Byte>, pos: nat, depth: nat)
    requires Plain(g)
    requires pos <= |buf| && depth < MAX_DECODE_DEPTH && Read(g, Defined(id), buf, pos, depth).Ok?
    ensures var r := Read(g, Defined(id), buf, pos, depth);
            Write(g, Defined(id), r.value) == Some(buf[pos..r.pos])
    decreases MAX_DECODE_DEPTH - depth, Defined(id), 0
  {
    match g[id]
    case StructDef(fields) => ReadAllCanonical(g, fields, buf, pos, depth + 1);
    case IntEnumDef(_) => SliceOne(buf, pos);
    case BorshEnumDef(variants) =>
      var fields := Lookup(variants, buf[pos]).value;
      assert PlainNodes(fields);
      ReadAllCanonical(g, fields, buf, pos + 1, depth + 1);
      SliceOne(buf, pos);
      SliceCons(buf, pos, pos + 1, Read(g, Defined(id), buf, pos, depth).pos);
  }

  lemma {:induction false} OptionCanonical(g: Graph, node: Node, buf: seq<Byte>, pos: nat, depth: nat)
    requires Plain(g) && PlainNode(node) && node.Nullable()
    requires pos <= |buf| && depth < MAX_DECODE_DEPTH && Read(g, node, buf, pos, depth).Ok?
    ensures var r := Read(g, node, buf, pos, depth); Write(g, node, r.value) == Some(buf[pos..r.pos])
    decreases MAX_DECODE_DEPTH - depth, node, 0
  {
    SliceOne(buf, pos);
    if buf[pos] == 1 {
      ReadCanonical(g, node.inner, buf, pos + 1, depth + 1);
      if node.OptionNode? { NotNone(g, node.inner, buf, pos + 1, depth + 1); }
      SliceCons(buf, pos, pos + 1, Read(g, node, buf, pos, depth).pos);
    }
  }

  lemma {:induction false} ReadAllCanonical(g: Graph, nodes: seq<Node>, buf: seq<Byte>, pos: nat, depth: nat)
    requires Plain(g) && PlainNodes(nodes)
    requires pos <= |buf| && depth <= MAX_DECODE_DEPTH && ReadAll(g, nodes, buf, pos, depth).Ok?
    ensures var r := ReadAll(g, nodes, buf, pos, depth); WriteAll(g, nodes, r.value) == Some(buf[pos..r.pos])
    decreases MAX_DECODE_DEPTH - depth, nodes, 0
  {
    if nodes != [] {
      hide Read, Write, PlainNode;
      var first := Read(g, nodes[0], buf, pos, depth);
      ReadCanonical(g, nodes[0], buf, pos, depth);
      ReadAllCanonical(g, nodes[1..], buf, first.pos, depth);
      var rest := ReadAll(g, nodes[1..], buf, first.pos, depth);
      assert ([first.value] + rest.value)[1..] == rest.value;
      SliceCons(buf, pos, first.pos, rest.pos);
    } else {
      assert buf[pos..pos] == [];
    }
  }

  /** `bytes` encode the well-typed value `v`, which meets the reader's two guards: on depth, and on
      the elements a vector may announce with `after` bytes left behind it. */
  predicate Encoding(g: Graph, node: Node, v: Value, bytes: seq<Byte>, depth: nat, after: nat) {
    && WellTyped(g, node, v)
    && Write(g, node, v) == Some(bytes)
    && depth + Depth(g, node, v) <= MAX_DECODE_DEPTH
    && VecsFit(g, node, v, after)
  }

  /** The reader accepts exactly the encodings of well-typed values that meet its guards. */
  lemma ReadIff(g: Graph, node: Node, buf: seq<Byte>, pos: nat, depth: nat, v: Value, end: nat)
    requires Plain(g) && PlainNode(node)
    requires pos <= end <= |buf| && depth <= MAX_DECODE_DEPTH
    ensures Read(g, node, buf, pos, depth) == Ok(v, end) <==> Encoding(g, node, v, buf[pos..end], depth, |buf| - end)
  {
    hide Read, Write, WellTyped, Depth, VecsFit;
    var r := Read(g, node, buf, pos, depth);
    if r == Ok(v, end) {
      ReadTyped(g, node, buf, pos, depth);
      ReadCanonical(g, node, buf, pos, depth);
    }
    if WellTyped(g, node, v) && Write(g, node, v) == Some(buf[pos..end]) {
      ReadBack(g, node, v, buf, pos, depth);
    }
  }

  // ----- the collapsing option ----------------------------------------------------------------

  /** Whatever bytes `node` reads, it writes them again. */
  ghost predicate CanonicalNode(g: Graph, node: Node) {
    forall buf: seq<Byte> :: CanonicalAt(g, node, buf)
  }

  predicate CanonicalAt(g: Graph, node: Node, buf: seq<Byte>) {
    var r := Read(g, node, buf, 0, 0);
    r.Ok? ==> Write(g, node, r.value) == Some(buf[..r.pos])
  }

  /** An option is canonical exactly when what it wraps directly is not itself nullable: around
      a nullable node the bytes `01 00` and `00` both read as `None`. */
  lemma OptionCanonicalIff(g: Graph, inner: Node)
    requires Plain(g) && PlainNode(inner)
    ensures CanonicalNode(g, OptionNode(inner)) <==> !inner.Nullable()
  {
    if inner.Nullable() {
      var buf: seq<Byte> := [1, 0];
      assert Read(g, inner, buf, 1, 1) == Ok(VNone, 2);
      assert Read(g, OptionNode(inner), buf, 0, 0) == Ok(VNone, 2);
      assert !CanonicalAt(g, OptionNode(inner), buf);
    } else {
      forall buf: seq<Byte> ensures CanonicalAt(g, OptionNode(inner), buf) {
        if Read(g, OptionNode(inner), buf, 0, 0).Ok? { ReadCanonical(g, OptionNode(inner), buf, 0, 0); }
      }
    }
  }

  // ----- vectors of positive-size elements ----------------------------------------------------

  /** Every vector in the type has elements of positive minimum size. */
  predicate SizedNode(g: Graph, node: Node) {
    match node
    case OptionNode(inner) => SizedNode(g, inner)
    case OptNode(inner) => SizedNode(g, inner)
    case VecNode(elem) => MinWire(g, elem, {}) > 0 && SizedNode(g, elem)
    case FixedArrayNode(elem, _) => SizedNode(g, elem)
    case _ => true
  }

  predicate SizedNodes(g: Graph, nodes: seq<Node>) {
    forall i :: 0 <= i < |nodes| ==> SizedNode(g, nodes[i])
  }

  predicate Sized(g: Graph) {
    forall id :: id in g ==>
      match g[id]
      case StructDef(fields) => SizedNodes(g, fields)
      case IntEnumDef(_) => true
      case BorshEnumDef(variants) => forall i :: 0 <= i < |variants| ==> SizedNodes(g, variants[i].fields)
  }

  /** Then the length guards refuse no genuine encoding, whatever follows it. */
  lemma {:induction false} SizedFits(g: Graph, node: Node, v: Value, after: nat)
    requires Sized(g) && SizedNode(g, node) && WellTyped(g, node, v)
    ensures VecsFit(g, node, v, after)
    decreases v, node, 0
  {
    match node
    case OptionNode(inner) => if !v.VNone? { SizedFits(g, inner, v, after); }
    case OptNode(inner) => if !v.VNone? { SizedFits(g, inner, v.inner, after); }
    case VecNode(elem) =>
      SizedAllFit(g, Repeat(elem, |v.elems|), v.elems, after);
      SizedVec(g, elem, v.elems);
    case FixedArrayNode(elem, n) => SizedAllFit(g, Repeat(elem, n), v.elems, after);
    case Defined(id) =>
      match g[id] {
        case StructDef(fields) => SizedAllFit(g, fields, v.fields, after);
        case IntEnumDef(_) =>
        case BorshEnumDef(variants) => SizedAllFit(g, Lookup(variants, v.tag).value, v.fields, after);
      }
    case _ =>
  }

  lemma SizedVec(g: Graph, elem: Node, vs: seq<Value>)
    requires MinWire(g, elem, {}) > 0 && AllTyped(g, Repeat(elem, |vs|), vs)
    ensures |vs| <= AllSize(g, Repeat(elem, |vs|), vs)
  {
    hide MinWire, Write;
    WriteAllTyped(g, Repeat(elem, |vs|), vs);
    MinRepeat(g, elem, |vs|, vs, {});
    MulAtLeast(|vs|, MinWire(g, elem, {}));
  }

  lemma MulAtLeast(n: nat, unit: nat)
    requires unit > 0
    ensures n <= n * unit
  {
  }

  lemma {:induction false} SizedAllFit(g: Graph, nodes: seq<Node>, vs: seq<Value>, after: nat)
    requires |nodes| == |vs| && Sized(g) && SizedNodes(g, nodes) && AllTyped(g, nodes, vs)
    ensures AllFit(g, nodes, vs, after)
    decreases vs, 0
  {
    if vs != [] {
      SizedFits(g, nodes[0], vs[0], AllSize(g, nodes[1..], vs[1..]) + after);
      SizedAllFit(g, nodes[1..], vs[1..], after);
    }
  }

  // ----- the entry points ---------------------------------------------------------------------

  datatype Mode = IxData | AccountData

  function Decode(g: Graph, node: Node, buf: seq<Byte>, mode: Mode): Option<Value> {
    var r := Read(g, node, buf, 0, 0);
    if r.Err? || (mode.IxData? && r.pos != |buf|) then None else Some(r.value)
  }

  function Encode(g: Graph, node: Node, v: Value): Option<seq<Byte>> {
    Write(g, node, v)
  }

  /** Decoding the encoding gives the value back, with realloc slack behind it or without, exactly
      if it meets the depth and length guards. */
  lemma DecodeEncode(g: Graph, node: Node, v: Value, slack: seq<Byte>)
    requires WellTyped(g, node, v)
    ensures Encode(g, node, v).Some?
    ensures var b, deep := Encode(g, node, v).value, Depth(g, node, v) > MAX_DECODE_DEPTH;
            && (Decode(g, node, b, IxData) == Some(v) <==> !deep && VecsFit(g, node, v, 0))
            && (Decode(g, node, b + slack, AccountData) == Some(v) <==> !deep && VecsFit(g, node, v, |slack|))
  {
    hide Read, Write, WellTyped, Depth, VecsFit;
    WriteTyped(g, node, v);
    var b := Encode(g, node, v).value;
    assert b[0..|b|] == b && (b + slack)[0..|b|] == b;
    ReadBack(g, node, v, b, 0, 0);
    ReadBack(g, node, v, b + slack, 0, 0);
  }

  /** Instruction data is accepted in one spelling only. */
  lemma EncodeDecode(g: Graph, node: Node, buf: seq<Byte>)
    requires Plain(g) && PlainNode(node) && Decode(g, node, buf, IxData).Some?
    ensures Encode(g, node, Decode(g, node, buf, IxData).value) == Some(buf)
  {
    ReadCanonical(g, node, buf, 0, 0);
    assert buf[0..|buf|] == buf;
  }

  /** A bare integer is written as a boolean exactly if it is 0 or 1, and then reads as that boolean. */
  lemma IntegerAsBool(g: Graph, i: int, slack: seq<Byte>)
    ensures Encode(g, BoolNode, VInt(i)).Some? <==> i == 0 || i == 1
    ensures Encode(g, BoolNode, VInt(i)).Some? ==>
              Decode(g, BoolNode, Encode(g, BoolNode, VInt(i)).value + slack, AccountData) == Some(VBool(i == 1))
  {
  }

  /** A vector of empty structs is written but, being longer than the bytes that follow its
      length, not read back. */
  lemma ZeroSizeVectorRefused()
    ensures var g: Graph := map[0 := StructDef([])];
            var v := VList([VStruct(0, [])]);
            && WellTyped(g, VecNode(Defined(0)), v)
            && Encode(g, VecNode(Defined(0)), v) == Some([1, 0, 0, 0])
            && Decode(g, VecNode(Defined(0)), [1, 0, 0, 0], IxData) == None
  {
    hide Read, Write, WellTyped, MinWire;
    var g: Graph := map[0 := StructDef([])];
    EmptyStructWritten(g);
    EmptyStructUnread(g);
  }

  lemma EmptyStructWritten(g: Graph)
    requires g == map[0 := StructDef([])]
    ensures var v := VList([VStruct(0, [])]);
            WellTyped(g, VecNode(Defined(0)), v) && Write(g, VecNode(Defined(0)), v) == Some([1, 0, 0, 0])
  {
    EmptyStructVector(g, VStruct(0, []));
    One4();
    hide WriteAll, AllTyped, Write, WellTyped, ToLE, Pow256, Repeat;
    VecWritten(g, Defined(0), [VStruct(0, [])]);
    var buf: seq<Byte> := [1, 0, 0, 0];
    assert buf + [] == buf;
  }

  lemma VecWritten(g: Graph, elem: Node, vs: seq<Value>)
    requires |vs| < Pow256(4) && AllTyped(g, Repeat(elem, |vs|), vs)
    ensures WellTyped(g, VecNode(elem), VList(vs))
    ensures Write(g, VecNode(elem), VList(vs)) == Join(ToLE(|vs|, 4), WriteAll(g, Repeat(elem, |vs|), vs))
  {
    hide AllTyped, WriteAll, ToLE, Pow256, Repeat;
  }

  lemma EmptyStructUnread(g: Graph)
    requires g == map[0 := StructDef([])]
    ensures Read(g, VecNode(Defined(0)), [1, 0, 0, 0], 0, 0).Err?
  {
    One4();
    hide FromLE;
    var buf: seq<Byte> := [1, 0, 0, 0];
    assert buf[0..4] == buf;
    assert ReadLen(buf, 0, MinWire(g, Defined(0), {})).Err?;
  }

  lemma EmptyStructVector(g: Graph, e: Value)
    requires g == map[0 := StructDef([])] && e == VStruct(0, [])
    ensures AllTyped(g, Repeat(Defined(0), 1), [e]) && WriteAll(g, Repeat(Defined(0), 1), [e]) == Some([])
  {
    var nodes := Repeat(Defined(0), 1);
    assert nodes[1..] == [] && [e][1..] == [];
    EmptyStruct(g);
    NothingWritten(g);
    hide Write, WellTyped;
    var none: seq<Byte> := [];
    assert none + none == none;
  }

  lemma EmptyStruct(g: Graph)
    requires g == map[0 := StructDef([])]
    ensures WellTyped(g, Defined(0), VStruct(0, [])) && Write(g, Defined(0), VStruct(0, [])) == Some([])
  {
    NothingWritten(g);
  }

  lemma NothingWritten(g: Graph)
    ensures AllTyped(g, [], []) && WriteAll(g, [], []) == Some([])
  {
  }

  lemma One4()
    ensures 1 < Pow256(4) && ToLE(1, 4) == [1, 0, 0, 0] && FromLE([1, 0, 0, 0]) == 1
  {
    assert Pow256(2) == 65536;
    assert ToLE(0, 3) == [0] + ToLE(0, 2) && ToLE(0, 2) == [0] + ToLE(0, 1);
    assert ToLE(1, 4) == [1, 0, 0, 0];
    FromToLE(1, 4);
  }

  /** `IntEnumNode.write` emits a tag the reader refuses: membership is not checked. */
  lemma UncheckedEnumTag(g: Graph, id: nat, tag: Byte)
    requires id in g && g[id].IntEnumDef?
    ensures Encode(g, Defined(id), VInt(tag)) == Some([tag])
    ensures Decode(g, Defined(id), [tag], IxData).Some? <==> tag in g[id].values
  {
    assert [tag][0] == tag;
  }
}
