/** Reading undoes writing, writing undoes reading, and exactly when. */
module CodecTheorems {
  import opened Wrappers
  import opened Bytes
  import opened Codec
  import Utf8

  // ----- what the reader's guards ask of a value ----------------------------------------------

  /** Levels of composite nesting that `v` takes up when read as `node`. */
  function Depth(g: Graph, node: Node, v: Value): nat
    requires WellTyped(g, node, v)
    decreases v, node, 0
  {
    match node
    case OptionNode(inner) => if v.VNone? then 1 else 1 + Depth(g, inner, v)
    case OptNode(inner) => if v.VNone? then 1 else 1 + Depth(g, inner, v.inner)
    case VecNode(elem) => 1 + AllDepth(g, Repeat(elem, |v.elems|), v.elems)
    case FixedArrayNode(elem, n) => 1 + AllDepth(g, Repeat(elem, n), v.elems)
    case Defined(id) =>
      (match g[id]
       case StructDef(fields) => 1 + AllDepth(g, fields, v.fields)
       case IntEnumDef(_) => 1
       case BorshEnumDef(variants) => 1 + AllDepth(g, Lookup(variants, v.tag).value, v.fields))
    case _ => 0
  }

  function AllDepth(g: Graph, nodes: seq<Node>, vs: seq<Value>): nat
    requires |nodes| == |vs| && AllTyped(g, nodes, vs)
    decreases vs, 0
  {
    if vs == [] then 0
    else
      var first, rest := Depth(g, nodes[0], vs[0]), AllDepth(g, nodes[1..], vs[1..]);
      if first < rest then rest else first
  }

  /** No vector in `v` announces more elements than bytes follow its length, when `after` bytes
      follow the whole value. */
  predicate VecsFit(g: Graph, node: Node, v: Value, after: nat)
    requires WellTyped(g, node, v)
    decreases v, node, 0
  {
    match node
    case OptionNode(inner) => v.VNone? || VecsFit(g, inner, v, after)
    case OptNode(inner) => v.VNone? || VecsFit(g, inner, v.inner, after)
    case VecNode(elem) =>
      var nodes := Repeat(elem, |v.elems|);
      AllFit(g, nodes, v.elems, after) && |v.elems| <= AllSize(g, nodes, v.elems) + after
    case FixedArrayNode(elem, n) => AllFit(g, Repeat(elem, n), v.elems, after)
    case Defined(id) =>
      (match g[id]
       case StructDef(fields) => AllFit(g, fields, v.fields, after)
       case IntEnumDef(_) => true
       case BorshEnumDef(variants) => AllFit(g, Lookup(variants, v.tag).value, v.fields, after))
    case _ => true
  }

  predicate AllFit(g: Graph, nodes: seq<Node>, vs: seq<Value>, after: nat)
    requires |nodes| == |vs| && AllTyped(g, nodes, vs)
    decreases vs, 0
  {
    vs == [] ||
    (VecsFit(g, nodes[0], vs[0], AllSize(g, nodes[1..], vs[1..]) + after) && AllFit(g, nodes[1..], vs[1..], after))
  }

  function AllSize(g: Graph, nodes: seq<Node>, vs: seq<Value>): nat
    requires |nodes| == |vs|
  {
    var b := WriteAll(g, nodes, vs);
    if b.Some? then |b.value| else 0
  }

  // ----- writing accepts every value of the type ----------------------------------------------

  lemma {:induction false} WriteTyped(g: Graph, node: Node, v: Value)
    requires WellTyped(g, node, v)
    ensures Write(g, node, v).Some?
    decreases v, node, 0
  {
    match node
    case OptionNode(inner) => if !v.VNone? { WriteTyped(g, inner, v); }
    case OptNode(inner) => if !v.VNone? { WriteTyped(g, inner, v.inner); }
    case VecNode(elem) => WriteAllTyped(g, Repeat(elem, |v.elems|), v.elems);
    case FixedArrayNode(elem, n) => WriteAllTyped(g, Repeat(elem, n), v.elems);
    case Defined(id) =>
      match g[id] {
        case StructDef(fields) => WriteAllTyped(g, fields, v.fields);
        case IntEnumDef(_) =>
        case BorshEnumDef(variants) => WriteAllTyped(g, Lookup(variants, v.tag).value, v.fields);
      }
    case _ =>
  }

  lemma {:induction false} WriteAllTyped(g: Graph, nodes: seq<Node>, vs: seq<Value>)
    requires |nodes| == |vs| && AllTyped(g, nodes, vs)
    ensures WriteAll(g, nodes, vs).Some?
    decreases vs, 0
  {
    if vs != [] {
      WriteTyped(g, nodes[0], vs[0]);
      WriteAllTyped(g, nodes[1..], vs[1..]);
    }
  }

  // ----- the computed minimum is a lower bound ------------------------------------------------

  /** No encoding is shorter than `min_wire_size`, whatever the stack it was computed under. */
  lemma {:induction false} MinWireBound(g: Graph, node: Node, v: Value, stack: set<nat>)
    requires Write(g, node, v).Some?
    ensures MinWire(g, node, stack) <= |Write(g, node, v).value|
    decreases v, node, 0
  {
    match node
    case FixedArrayNode(elem, n) => MinRepeat(g, elem, n, v.elems, stack);
    case Defined(id) =>
      if id !in stack {
        match g[id] {
          case StructDef(fields) => MinAllBound(g, fields, v.fields, stack + {id});
          case IntEnumDef(_) =>
          case BorshEnumDef(variants) =>
            var fields := Lookup(variants, v.tag).value;
            MinAllBound(g, fields, v.fields, stack + {id});
            MinVariantsBound(g, variants, v.tag, stack + {id});
        }
      }
    case _ =>
  }

  lemma {:induction false} MinAllBound(g: Graph, nodes: seq<Node>, vs: seq<Value>, stack: set<nat>)
    requires |nodes| == |vs| && WriteAll(g, nodes, vs).Some?
    ensures MinAll(g, nodes, stack) <= |WriteAll(g, nodes, vs).value|
    decreases vs, 0
  {
    if vs != [] {
      MinWireBound(g, nodes[0], vs[0], stack);
      MinAllBound(g, nodes[1..], vs[1..], stack);
    }
  }

  lemma {:induction false} MinRepeat(g: Graph, elem: Node, n: nat, vs: seq<Value>, stack: set<nat>)
    requires |vs| == n && WriteAll(g, Repeat(elem, n), vs).Some?
    ensures n * MinWire(g, elem, stack) <= |WriteAll(g, Repeat(elem, n), vs).value|
    decreases vs, 0
  {
    if n > 0 {
      assert Repeat(elem, n)[1..] == Repeat(elem, n - 1);
      MinWireBound(g, elem, vs[0], stack);
      MinRepeat(g, elem, n - 1, vs[1..], stack);
      assert n * MinWire(g, elem, stack) == MinWire(g, elem, stack) + (n - 1) * MinWire(g, elem, stack);
    }
  }

  lemma {:induction false} MinVariantsBound(g: Graph, variants: seq<Variant>, tag: int, stack: set<nat>)
    requires Lookup(variants, tag).Some?
    ensures MinVariants(g, variants, stack) <= MinAll(g, Lookup(variants, tag).value, stack)
  {
    if variants[0].tag != tag { MinVariantsBound(g, variants[1..], tag, stack); }
  }

  // ----- reading back what was written --------------------------------------------------------

  /** The bytes `b` stand in `buf` at `pos`. */
  predicate Holds(buf: seq<Byte>, pos: nat, b: seq<Byte>) {
    pos + |b| <= |buf| && buf[pos..pos + |b|] == b
  }

  lemma HoldsSplit(buf: seq<Byte>, pos: nat, a: seq<Byte>, b: seq<Byte>)
    requires Holds(buf, pos, a + b)
    ensures Holds(buf, pos, a) && Holds(buf, pos + |a|, b)
  {
    var w := a + b;
    assert buf[pos..pos + |a|] == w[..|a|] == a;
    assert buf[pos + |a|..pos + |a| + |b|] == w[|a|..] == b;
  }

  lemma PrefixedBack(buf: seq<Byte>, pos: nat, b: seq<Byte>)
    requires Prefixed(b).Some? && Holds(buf, pos, Prefixed(b).value)
    ensures ReadLen(buf, pos, 1) == Ok(|b|, pos + 4) && Holds(buf, pos + 4, b)
  {
    HoldsSplit(buf, pos, ToLE(|b|, 4), b);
    FromToLE(|b|, 4);
  }

  lemma StrBack(chars: seq<int>, buf: seq<Byte>, pos: nat)
    requires WriteLeaf(StrNode, VStr(chars)).Some?
    requires Holds(buf, pos, WriteLeaf(StrNode, VStr(chars)).value)
    ensures ReadLeaf(StrNode, buf, pos) == Ok(VStr(chars), pos + |WriteLeaf(StrNode, VStr(chars)).value|)
  {
    PrefixedBack(buf, pos, Utf8.Encode(chars).value);
    Utf8.RoundTrip(chars);
  }

  lemma LeafBack(node: Node, v: Value, buf: seq<Byte>, pos: nat)
    requires !node.Composite() && WriteLeaf(node, v).Some? && (node.BoolNode? ==> v.VBool?)
    requires Holds(buf, pos, WriteLeaf(node, v).value)
    ensures ReadLeaf(node, buf, pos) == Ok(v, pos + |WriteLeaf(node, v).value|)
  {
    match node
    case IntNode(n, s) => IntRoundTrip(v.i, n, s);
    case StrNode => StrBack(v.chars, buf, pos);
    case BytesNode => PrefixedBack(buf, pos, v.raw);
    case BoolNode => assert buf[pos] == WriteLeaf(node, v).value[0];
    case _ =>
  }

  /** What reading the encoding of `v` at `pos` answers: the value and the position just behind
      it if the nesting fits the depth guard and no vector is longer than the bytes left, and a
      refusal otherwise. */
  predicate ReadsBack(g: Graph, node: Node, v: Value, buf: seq<Byte>, pos: nat, depth: nat)
    requires WellTyped(g, node, v) && depth <= MAX_DECODE_DEPTH
    requires Write(g, node, v).Some? && Holds(buf, pos, Write(g, node, v).value)
  {
    var n := |Write(g, node, v).value|;
    Read(g, node, buf, pos, depth) ==
    if depth + Depth(g, node, v) <= MAX_DECODE_DEPTH && VecsFit(g, node, v, |buf| - pos - n)
    then Ok(v, pos + n) else Err
  }

  predicate AllReadBack(g: Graph, nodes: seq<Node>, vs: seq<Value>, buf: seq<Byte>, pos: nat, depth: nat)
    requires |nodes| == |vs| && AllTyped(g, nodes, vs) && depth <= MAX_DECODE_DEPTH
    requires WriteAll(g, nodes, vs).Some? && Holds(buf, pos, WriteAll(g, nodes, vs).value)
  {
    var n := |WriteAll(g, nodes, vs).value|;
    ReadAll(g, nodes, buf, pos, depth) ==
    if depth + AllDepth(g, nodes, vs) <= MAX_DECODE_DEPTH && AllFit(g, nodes, vs, |buf| - pos - n)
    then Ok(vs, pos + n) else Err
  }

  /** Reading an option, one level down. */
  lemma OptionReads(g: Graph, node: Node, buf: seq<Byte>, pos: nat, depth: nat)
    requires node.Nullable() && pos < |buf| && depth < MAX_DECODE_DEPTH
    ensures buf[pos] == 0 ==> Read(g, node, buf, pos, depth) == Ok(VNone, pos + 1)
    ensures buf[pos] == 1 ==>
              var r := Read(g, node.inner, buf, pos + 1, depth + 1);
              Read(g, node, buf, pos, depth) == if node.OptNode? && r.Ok? then Ok(VOpt(r.value), r.pos) else r
  {
    hide ReadLeaf, ReadLen, ReadAll, MinWire, Lookup;
  }

  /** The value a present option passes on. */
  function Passed(node: Node, v: Value): Value
    requires node.Nullable() && (node.OptNode? ==> v.VOpt?)
  {
    if node.OptNode? then v.inner else v
  }

  lemma OptionIs(g: Graph, node: Node, v: Value, after: nat)
    requires node.Nullable() && WellTyped(g, node, v)
    ensures v.VNone? ==> Write(g, node, v) == Some([0]) && Depth(g, node, v) == 1 && VecsFit(g, node, v, after)
    ensures !v.VNone? ==>
              && (node.OptNode? ==> v.VOpt?) && WellTyped(g, node.inner, Passed(node, v))
              && Write(g, node, v) == Join([1], Write(g, node.inner, Passed(node, v)))
              && Depth(g, node, v) == 1 + Depth(g, node.inner, Passed(node, v))
              && (VecsFit(g, node, v, after) <==> VecsFit(g, node.inner, Passed(node, v), after))
  {
    hide WriteLeaf, MinWire, Lookup, AllFit, AllDepth, AllTyped, WriteAll;
  }

  lemma {:induction false} OptionBack(g: Graph, node: Node, v: Value, buf: seq<Byte>, pos: nat, depth: nat)
    requires node.Nullable() && WellTyped(g, node, v) && depth < MAX_DECODE_DEPTH
    requires Write(g, node, v).Some? && Holds(buf, pos, Write(g, node, v).value)
    ensures ReadsBack(g, node, v, buf, pos, depth)
    decreases v, node, 0
  {
    hide Read, Write, Depth, VecsFit, WellTyped;
    var w := Write(g, node, v).value;
    OptionIs(g, node, v, |buf| - pos - |w|);
    assert buf[pos] == w[0];
    OptionReads(g, node, buf, pos, depth);
    if !v.VNone? {
      HoldsSplit(buf, pos, [1], Write(g, node.inner, Passed(node, v)).value);
      ReadBack(g, node.inner, Passed(node, v), buf, pos + 1, depth + 1);
    }
  }

  lemma {:induction false} VecBack(g: Graph, elem: Node, v: Value, buf: seq<Byte>, pos: nat, depth: nat)
    requires WellTyped(g, VecNode(elem), v) && depth < MAX_DECODE_DEPTH
    requires Write(g, VecNode(elem), v).Some? && Holds(buf, pos, Write(g, VecNode(elem), v).value)
    ensures ReadsBack(g, VecNode(elem), v, buf, pos, depth)
    decreases v, elem, 1
  {
    hide WriteLeaf, ReadLeaf, ToLE, FromLE, Pow256, Lookup, AllFit, AllDepth, ReadAll, WriteAll;
    var n := |v.elems|;
    var nodes := Repeat(elem, n);
    HoldsSplit(buf, pos, ToLE(n, 4), WriteAll(g, nodes, v.elems).value);
    MinRepeat(g, elem, n, v.elems, {});
    LenBack(n, buf, pos, MinWire(g, elem, {}));
    ReadAllBack(g, nodes, v.elems, buf, pos + 4, depth + 1);
  }

  /** The byte floor never refuses a length whose elements are really there. */
  lemma LenBack(n: nat, buf: seq<Byte>, pos: nat, minElem: nat)
    requires n < Pow256(4) && Holds(buf, pos, ToLE(n, 4)) && n * minElem <= |buf| - pos - 4
    ensures ReadLen(buf, pos, minElem) == if n <= |buf| - pos - 4 then Ok(n, pos + 4) else Err
  {
    FromToLE(n, 4);
    if minElem > 0 { DivBound(n, |buf| - pos - 4, minElem); }
  }

  lemma DivBound(n: nat, size: nat, unit: nat)
    requires unit > 0 && n * unit <= size
    ensures n <= size / unit
  {
    var q, r := size / unit, size % unit;
    assert n * unit < (q + 1) * unit;
  }

  lemma {:induction false} DefinedBack(g: Graph, id: nat, v: Value, buf: seq<Byte>, pos: nat, depth: nat)
    requires WellTyped(g, Defined(id), v) && depth < MAX_DECODE_DEPTH
    requires Write(g, Defined(id), v).Some? && Holds(buf, pos, Write(g, Defined(id), v).value)
    ensures ReadsBack(g, Defined(id), v, buf, pos, depth)
    decreases v, Defined(id), 0
  {
    hide WriteLeaf, ReadLeaf, ReadLen, MinWire, ToLE, FromLE, Pow256, AllFit, AllDepth, ReadAll, WriteAll;
    match g[id]
    case StructDef(fields) => ReadAllBack(g, fields, v.fields, buf, pos, depth + 1);
    case IntEnumDef(_) => assert buf[pos] == Write(g, Defined(id), v).value[0];
    case BorshEnumDef(variants) =>
      assert buf[pos] == Write(g, Defined(id), v).value[0];
      var fields := Lookup(variants, v.tag).value;
      HoldsSplit(buf, pos, [v.tag], WriteAll(g, fields, v.fields).value);
      ReadAllBack(g, fields, v.fields, buf, pos + 1, depth + 1);
  }

  /** Exactly when reading an encoding gives the value back. */
  lemma {:induction false} ReadBack(g: Graph, node: Node, v: Value, buf: seq<Byte>, pos: nat, depth: nat)
    requires WellTyped(g, node, v) && depth <= MAX_DECODE_DEPTH
    requires Write(g, node, v).Some? && Holds(buf, pos, Write(g, node, v).value)
    ensures ReadsBack(g, node, v, buf, pos, depth)
    decreases v, node, 2
  {
    hide WriteLeaf, ReadLeaf, ReadLen, MinWire, ToLE, FromLE, Pow256, AllFit, AllDepth, ReadAll, WriteAll, Lookup;
    if !node.Composite() {
      LeafBack(node, v, buf, pos);
    } else if depth < MAX_DECODE_DEPTH {
      match node
      case OptionNode(_) => OptionBack(g, node, v, buf, pos, depth);
      case OptNode(_) => OptionBack(g, node, v, buf, pos, depth);
      case VecNode(elem) => VecBack(g, elem, v, buf, pos, depth);
      case FixedArrayNode(elem, n) => ReadAllBack(g, Repeat(elem, n), v.elems, buf, pos, depth + 1);
      case Defined(id) => DefinedBack(g, id, v, buf, pos, depth);
    }
  }

  lemma {:induction false} ReadAllBack(g: Graph, nodes: seq<Node>, vs: seq<Value>, buf: seq<Byte>, pos: nat, depth: nat)
    requires |nodes| == |vs| && AllTyped(g, nodes, vs) && depth <= MAX_DECODE_DEPTH
    requires WriteAll(g, nodes, vs).Some? && Holds(buf, pos, WriteAll(g, nodes, vs).value)
    ensures AllReadBack(g, nodes, vs, buf, pos, depth)
    decreases vs, 0
  {
    if vs != [] {
      HoldsCons(g, nodes, vs, buf, pos);
      ReadBack(g, nodes[0], vs[0], buf, pos, depth);
      ReadAllBack(g, nodes[1..], vs[1..], buf, pos + |Write(g, nodes[0], vs[0]).value|, depth);
      ConsBack(g, nodes, vs, buf, pos, depth);
    }
  }

  lemma HoldsCons(g: Graph, nodes: seq<Node>, vs: seq<Value>, buf: seq<Byte>, pos: nat)
    requires |nodes| == |vs| > 0
    requires WriteAll(g, nodes, vs).Some? && Holds(buf, pos, WriteAll(g, nodes, vs).value)
    ensures Write(g, nodes[0], vs[0]).Some? && Holds(buf, pos, Write(g, nodes[0], vs[0]).value)
    ensures WriteAll(g, nodes[1..], vs[1..]).Some?
    ensures Holds(buf, pos + |Write(g, nodes[0], vs[0]).value|, WriteAll(g, nodes[1..], vs[1..]).value)
  {
    HoldsSplit(buf, pos, Write(g, nodes[0], vs[0]).value, WriteAll(g, nodes[1..], vs[1..]).value);
  }

  lemma ConsBack(g: Graph, nodes: seq<Node>, vs: seq<Value>, buf: seq<Byte>, pos: nat, depth: nat)
    requires |nodes| == |vs| > 0 && AllTyped(g, nodes, vs) && depth <= MAX_DECODE_DEPTH
    requires WriteAll(g, nodes, vs).Some? && Holds(buf, pos, WriteAll(g, nodes, vs).value)
    requires Write(g, nodes[0], vs[0]).Some? && Holds(buf, pos, Write(g, nodes[0], vs[0]).value)
    requires WriteAll(g, nodes[1..], vs[1..]).Some?
    requires Holds(buf, pos + |Write(g, nodes[0], vs[0]).value|, WriteAll(g, nodes[1..], vs[1..]).value)
    requires ReadsBack(g, nodes[0], vs[0], buf, pos, depth)
    requires AllReadBack(g, nodes[1..], vs[1..], buf, pos + |Write(g, nodes[0], vs[0]).value|, depth)
    ensures AllReadBack(g, nodes, vs, buf, pos, depth)
  {
    hide Read, ReadAll, Write, WriteAll, WellTyped, AllTyped, Depth, AllDepth, VecsFit, AllFit;
    var n, rest := |Write(g, nodes[0], vs[0]).value|, |WriteAll(g, nodes[1..], vs[1..]).value|;
    ConsIs(g, nodes, vs, |buf| - pos - n - rest);
    ConsReads(g, nodes, buf, pos, depth);
    assert [vs[0]] + vs[1..] == vs;
  }

  lemma ConsIs(g: Graph, nodes: seq<Node>, vs: seq<Value>, after: nat)
    requires |nodes| == |vs| > 0 && AllTyped(g, nodes, vs)
    requires Write(g, nodes[0], vs[0]).Some? && WriteAll(g, nodes[1..], vs[1..]).Some?
    ensures WellTyped(g, nodes[0], vs[0]) && AllTyped(g, nodes[1..], vs[1..])
    ensures var a, b := Write(g, nodes[0], vs[0]).value, WriteAll(g, nodes[1..], vs[1..]).value;
            && WriteAll(g, nodes, vs) == Some(a + b)
            && (AllFit(g, nodes, vs, after) <==> VecsFit(g, nodes[0], vs[0], |b| + after) && AllFit(g, nodes[1..], vs[1..], after))
    ensures var first, rest := Depth(g, nodes[0], vs[0]), AllDepth(g, nodes[1..], vs[1..]);
            AllDepth(g, nodes, vs) == if first < rest then rest else first
  {
    hide Write, WellTyped, Depth, VecsFit;
  }

  lemma ConsReads(g: Graph, nodes: seq<Node>, buf: seq<Byte>, pos: nat, depth: nat)
    requires nodes != [] && pos <= |buf| && depth <= MAX_DECODE_DEPTH
    ensures var first := Read(g, nodes[0], buf, pos, depth);
            && (first.Err? ==> ReadAll(g, nodes, buf, pos, depth) == Err)
            && (first.Ok? ==>
                  var rest := ReadAll(g, nodes[1..], buf, first.pos, depth);
                  ReadAll(g, nodes, buf, pos, depth) == if rest.Err? then Err else Ok([first.value] + rest.value, rest.pos))
  {
    hide Read;
  }
}
