/** The Borsh intermediate representation and its two walks.

    A type is a `Node`; structs and enums are shared, possibly cyclic nodes, so a reference to
    one is `Defined(id)` into a `Graph`. `Read` and `Write` say what the walks compute; the
    classes in `CodecMachine` carry them out on a cursor and on an output buffer. */
module Codec {
  import opened Wrappers
  import opened Bytes
  import Utf8

  const MAX_DECODE_DEPTH: nat := 64

  datatype Node =
    | IntNode(nbytes: nat, signed: bool)
    | FloatNode(double: bool)
    | BoolNode
    | StrNode
    | BytesNode
    | FixedBytesNode(size: nat)
    | PubkeyNode
    | OptionNode(inner: Node)
    | OptNode(inner: Node)
    | VecNode(elem: Node)
    | FixedArrayNode(elem: Node, count: nat)
    | Defined(id: nat)
  {
    predicate Composite() {
      OptionNode? || OptNode? || VecNode? || FixedArrayNode? || Defined?
    }

    /** Reading this node can yield `None`. */
    predicate Nullable() {
      OptionNode? || OptNode?
    }
  }

  datatype Variant = Variant(tag: int, fields: seq<Node>)

  datatype TypeDef =
    | StructDef(fields: seq<Node>)
    | IntEnumDef(values: set<int>)
    | BorshEnumDef(variants: seq<Variant>)

  type Graph = map<nat, TypeDef>

  /** Decoded values. `VNone` is Python's `None`: `OptionNode` adds no wrapper of its own,
      `OptNode` wraps a present value in `VOpt`. Floats are their little-endian bit patterns. */
  datatype Value =
    | VInt(i: int)
    | VFloat(bits: seq<Byte>)
    | VBool(b: bool)
    | VStr(chars: seq<int>)
    | VBytes(raw: seq<Byte>)
    | VPubkey(raw: seq<Byte>)
    | VNone
    | VOpt(inner: Value)
    | VList(elems: seq<Value>)
    | VStruct(id: nat, fields: seq<Value>)
    | VIntEnum(id: nat, tag: int)
    | VVariant(id: nat, tag: int, fields: seq<Value>)

  function Repeat(node: Node, n: nat): (r: seq<Node>)
    ensures |r| == n && forall i :: 0 <= i < n ==> r[i] == node
  {
    seq(n, _ => node)
  }

  function FloatSize(double: bool): nat {
    if double then 8 else 4
  }

  /** The IEEE 754 patterns with an all-ones exponent and a non-zero fraction. */
  predicate IsNaN(b: seq<Byte>, double: bool)
    requires |b| == FloatSize(double)
  {
    if double then
      b[7] % 128 == 127 && b[6] / 16 == 15 &&
      !(b[6] % 16 == b[5] == b[4] == b[3] == b[2] == b[1] == b[0] == 0)
    else
      b[3] % 128 == 127 && b[2] / 128 == 1 && !(b[2] % 128 == b[1] == b[0] == 0)
  }

  function Lookup(variants: seq<Variant>, tag: int): (r: Option<seq<Node>>)
    ensures r.Some? ==> exists i :: 0 <= i < |variants| && variants[i] == Variant(tag, r.value)
  {
    if variants == [] then None
    else if variants[0].tag == tag then
      assert variants[0] == Variant(tag, variants[0].fields);
      Some(variants[0].fields)
    else
      var r := Lookup(variants[1..], tag);
      assert r.Some? ==> exists i :: 0 <= i < |variants[1..]| && variants[1..][i] == Variant(tag, r.value);
      r
  }

  // ----- minimum encoded size ---------------------------------------------------------------

  /** `min_wire_size`: a definition met again on the way down counts for nothing. */
  function MinWire(g: Graph, node: Node, stack: set<nat>): nat
    decreases g.Keys - stack, node, 0
  {
    match node
    case IntNode(n, _) => n
    case FloatNode(d) => FloatSize(d)
    case BoolNode => 1
    case StrNode => 4
    case BytesNode => 4
    case FixedBytesNode(n) => n
    case PubkeyNode => 32
    case OptionNode(_) => 1
    case OptNode(_) => 1
    case VecNode(_) => 4
    case FixedArrayNode(elem, n) => n * MinWire(g, elem, stack)
    case Defined(id) =>
      if id in stack || id !in g then 0
      else
        match g[id]
        case StructDef(fields) => MinAll(g, fields, stack + {id})
        case IntEnumDef(_) => 1
        case BorshEnumDef(variants) =>
          if variants == [] then 1 else 1 + MinVariants(g, variants, stack + {id})
  }

  function MinAll(g: Graph, nodes: seq<Node>, stack: set<nat>): nat
    decreases g.Keys - stack, nodes, 0
  {
    if nodes == [] then 0 else MinWire(g, nodes[0], stack) + MinAll(g, nodes[1..], stack)
  }

  function MinVariants(g: Graph, variants: seq<Variant>, stack: set<nat>): nat
    requires variants != []
    decreases g.Keys - stack, variants, 0
  {
    var first := MinAll(g, variants[0].fields, stack);
    if |variants| == 1 then first
    else
      var rest := MinVariants(g, variants[1..], stack);
      if rest < first then rest else first
  }

  // ----- writing ----------------------------------------------------------------------------

  function Prefixed(b: seq<Byte>): Option<seq<Byte>> {
    if |b| < Pow256(4) then Some(ToLE(|b|, 4) + b) else None
  }

  function WriteLeaf(node: Node, v: Value): Option<seq<Byte>>
    requires !node.Composite()
  {
    match node
    case IntNode(n, s) => if v.VInt? then IntToLE(v.i, n, s) else None
    case FloatNode(d) =>
      if v.VFloat? && |v.bits| == FloatSize(d) && !IsNaN(v.bits, d) then Some(v.bits) else None
    case BoolNode =>
      if v == VBool(true) || v == VInt(1) then Some([1])
      else if v == VBool(false) || v == VInt(0) then Some([0])
      else None
    case StrNode =>
      if v.VStr? then
        var b := Utf8.Encode(v.chars);
        if b.Some? then Prefixed(b.value) else None
      else None
    case BytesNode => if v.VBytes? then Prefixed(v.raw) else None
    case FixedBytesNode(n) => if v.VBytes? && |v.raw| == n then Some(v.raw) else None
    case PubkeyNode => if v.VPubkey? && |v.raw| == 32 then Some(v.raw) else None
  }

  function Join(a: seq<Byte>, b: Option<seq<Byte>>): Option<seq<Byte>> {
    if b.Some? then Some(a + b.value) else None
  }

  /** The bytes a node appends for a value; `None` where the source raises. */
  function Write(g: Graph, node: Node, v: Value): Option<seq<Byte>>
    decreases v, node, 0
  {
    match node
    case OptionNode(inner) => if v.VNone? then Some([0]) else Join([1], Write(g, inner, v))
    case OptNode(inner) =>
      if v.VNone? then Some([0]) else if v.VOpt? then Join([1], Write(g, inner, v.inner)) else None
    case VecNode(elem) =>
      if v.VList? && |v.elems| < Pow256(4) then
        Join(ToLE(|v.elems|, 4), WriteAll(g, Repeat(elem, |v.elems|), v.elems))
      else None
    case FixedArrayNode(elem, n) =>
      if v.VList? && |v.elems| == n then WriteAll(g, Repeat(elem, n), v.elems) else None
    case Defined(id) =>
      if id !in g then None
      else (match g[id]
            case StructDef(fields) =>
              if v.VStruct? && v.id == id && |v.fields| == |fields| then WriteAll(g, fields, v.fields) else None
            case IntEnumDef(_) =>
              if v.VIntEnum? && 0 <= v.tag < 256 then Some([v.tag])
              else if v.VInt? && 0 <= v.i < 256 then Some([v.i])
              else None
            case BorshEnumDef(variants) =>
              if v.VVariant? && v.id == id && 0 <= v.tag < 256 && Lookup(variants, v.tag).Some?
                 && |Lookup(variants, v.tag).value| == |v.fields|
              then Join([v.tag], WriteAll(g, Lookup(variants, v.tag).value, v.fields))
              else None)
    case _ => WriteLeaf(node, v)
  }

  function WriteAll(g: Graph, nodes: seq<Node>, vs: seq<Value>): Option<seq<Byte>>
    requires |nodes| == |vs|
    decreases vs, 0
  {
    if vs == [] then Some([])
    else
      var first := Write(g, nodes[0], vs[0]);
      if first.None? then None else Join(first.value, WriteAll(g, nodes[1..], vs[1..]))
  }

  // ----- reading ----------------------------------------------------------------------------

  datatype Parsed<+T> = Ok(value: T, pos: nat) | Err

  function Take(buf: seq<Byte>, pos: nat, n: int): (r: Parsed<seq<Byte>>)
    requires pos <= |buf|
    ensures r.Ok? <==> 0 <= n <= |buf| - pos
    ensures r.Ok? ==> r.pos == pos + n && r.value == buf[pos..r.pos]
  {
    if n < 0 || n > |buf| - pos then Err else Ok(buf[pos..pos + n], pos + n)
  }

  /** `_read_seq_len`: a count is refused when it exceeds the bytes left, or the number of
      smallest elements they could hold. */
  function ReadLen(buf: seq<Byte>, pos: nat, minElem: nat): (r: Parsed<nat>)
    requires pos <= |buf|
    ensures r.Ok? ==> r.pos == pos + 4 <= |buf| && r.value == FromLE(buf[pos..pos + 4])
    ensures r.Ok? ==> r.value <= |buf| - r.pos
  {
    var t := Take(buf, pos, 4);
    if t.Err? then Err
    else
      var n, remaining := FromLE(t.value), |buf| - t.pos;
      if n > remaining then Err
      else if minElem > 0 && n > remaining / minElem then Err
      else Ok(n, t.pos)
  }

  function ReadLeaf(node: Node, buf: seq<Byte>, pos: nat): (r: Parsed<Value>)
    requires pos <= |buf| && !node.Composite()
    ensures r.Ok? ==> pos <= r.pos <= |buf|
  {
    match node
    case IntNode(n, s) =>
      var t := Take(buf, pos, n);
      if t.Err? then Err else Ok(VInt(IntFromLE(t.value, s)), t.pos)
    case FloatNode(d) =>
      var t := Take(buf, pos, FloatSize(d));
      if t.Err? || IsNaN(t.value, d) then Err else Ok(VFloat(t.value), t.pos)
    case BoolNode =>
      var t := Take(buf, pos, 1);
      if t.Err? || t.value[0] > 1 then Err else Ok(VBool(t.value[0] == 1), t.pos)
    case StrNode =>
      var n := ReadLen(buf, pos, 1);
      if n.Err? then Err
      else
        var t := Take(buf, n.pos, n.value);
        var s := Utf8.Decode(t.value);
        if s.None? then Err else Ok(VStr(s.value), t.pos)
    case BytesNode =>
      var n := ReadLen(buf, pos, 1);
      if n.Err? then Err
      else
        var t := Take(buf, n.pos, n.value);
        Ok(VBytes(t.value), t.pos)
    case FixedBytesNode(n) =>
      var t := Take(buf, pos, n);
      if t.Err? then Err else Ok(VBytes(t.value), t.pos)
    case PubkeyNode =>
      var t := Take(buf, pos, 32);
      if t.Err? then Err else Ok(VPubkey(t.value), t.pos)
  }

  /** What reading a node at `pos` yields. Every composite level spends one unit of depth. */
  function Read(g: Graph, node: Node, buf: seq<Byte>, pos: nat, depth: nat): (r: Parsed<Value>)
    requires pos <= |buf| && depth <= MAX_DECODE_DEPTH
    ensures r.Ok? ==> pos <= r.pos <= |buf|
    decreases MAX_DECODE_DEPTH - depth, node, 0
  {
    if !node.Composite() then ReadLeaf(node, buf, pos)
    else if depth == MAX_DECODE_DEPTH then Err
    else
      match node
      case OptionNode(inner) =>
        var t := Take(buf, pos, 1);
        if t.Err? || t.value[0] > 1 then Err
        else if t.value[0] == 0 then Ok(VNone, t.pos)
        else Read(g, inner, buf, t.pos, depth + 1)
      case OptNode(inner) =>
        var t := Take(buf, pos, 1);
        if t.Err? || t.value[0] > 1 then Err
        else if t.value[0] == 0 then Ok(VNone, t.pos)
        else
          var r := Read(g, inner, buf, t.pos, depth + 1);
          if r.Err? then Err else Ok(VOpt(r.value), r.pos)
      case VecNode(elem) =>
        var n := ReadLen(buf, pos, MinWire(g, elem, {}));
        if n.Err? then Err
        else
          var r := ReadAll(g, Repeat(elem, n.value), buf, n.pos, depth + 1);
          if r.Err? then Err else Ok(VList(r.value), r.pos)
      case FixedArrayNode(elem, n) =>
        var r := ReadAll(g, Repeat(elem, n), buf, pos, depth + 1);
        if r.Err? then Err else Ok(VList(r.value), r.pos)
      case Defined(id) =>
        if id !in g then Err
        else
          match g[id]
          case StructDef(fields) =>
            var r := ReadAll(g, fields, buf, pos, depth + 1);
            if r.Err? then Err else Ok(VStruct(id, r.value), r.pos)
          case IntEnumDef(values) =>
            var t := Take(buf, pos, 1);
            if t.Err? || t.value[0] !in values then Err else Ok(VIntEnum(id, t.value[0]), t.pos)
          case BorshEnumDef(variants) =>
            var t := Take(buf, pos, 1);
            if t.Err? then Err
            else
              var fields := Lookup(variants, t.value[0]);
              if fields.None? then Err
              else
                var r := ReadAll(g, fields.value, buf, t.pos, depth + 1);
                if r.Err? then Err else Ok(VVariant(id, t.value[0], r.value), r.pos)
  }

  function ReadAll(g: Graph, nodes: seq<Node>, buf: seq<Byte>, pos: nat, depth: nat): (r: Parsed<seq<Value>>)
    requires pos <= |buf| && depth <= MAX_DECODE_DEPTH
    ensures r.Ok? ==> pos <= r.pos <= |buf| && |r.value| == |nodes|
    decreases MAX_DECODE_DEPTH - depth, nodes, 0
  {
    if nodes == [] then Ok([], pos)
    else
      var first := Read(g, nodes[0], buf, pos, depth);
      if first.Err? then Err
      else
        var rest := ReadAll(g, nodes[1..], buf, first.pos, depth);
        if rest.Err? then Err else Ok([first.value] + rest.value, rest.pos)
  }

  // ----- the values of a type ---------------------------------------------------------------

  /** `v` is a value of the type `node`: what a reader may hand out. */
  predicate WellTyped(g: Graph, node: Node, v: Value)
    decreases v, node, 0
  {
    match node
    case OptionNode(inner) => v.VNone? || WellTyped(g, inner, v)
    case OptNode(inner) => v.VNone? || (v.VOpt? && WellTyped(g, inner, v.inner))
    case VecNode(elem) =>
      v.VList? && |v.elems| < Pow256(4) && AllTyped(g, Repeat(elem, |v.elems|), v.elems)
    case FixedArrayNode(elem, n) => v.VList? && |v.elems| == n && AllTyped(g, Repeat(elem, n), v.elems)
    case Defined(id) =>
      id in g &&
      (match g[id]
       case StructDef(fields) =>
         v.VStruct? && v.id == id && |v.fields| == |fields| && AllTyped(g, fields, v.fields)
       case IntEnumDef(values) => v.VIntEnum? && v.id == id && 0 <= v.tag < 256 && v.tag in values
       case BorshEnumDef(variants) =>
         v.VVariant? && v.id == id && 0 <= v.tag < 256 && Lookup(variants, v.tag).Some?
         && |Lookup(variants, v.tag).value| == |v.fields|
         && AllTyped(g, Lookup(variants, v.tag).value, v.fields))
    case BoolNode => v.VBool?
    case _ => WriteLeaf(node, v).Some?
  }

  predicate AllTyped(g: Graph, nodes: seq<Node>, vs: seq<Value>)
    requires |nodes| == |vs|
    decreases vs, 0
  {
    vs == [] || (WellTyped(g, nodes[0], vs[0]) && AllTyped(g, nodes[1..], vs[1..]))
  }
}
