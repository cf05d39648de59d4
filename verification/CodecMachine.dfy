/** The codec as it runs: a bounds-checked cursor with a depth counter, and an output buffer
    that grows. Each method is proved against the functions of module `Codec`. */
module CodecMachine {
  import opened Wrappers
  import opened Bytes
  import opened Codec
  import Utf8

  class Cursor {
    const buf: seq<Byte>
    var pos: nat
    var depth: nat

    ghost predicate Valid()
      reads this
    {
      pos <= |buf| && depth <= MAX_DECODE_DEPTH
    }

    constructor (buf: seq<Byte>)
      ensures Valid() && this.buf == buf && pos == 0 && depth == 0
    {
      this.buf := buf;
      pos, depth := 0, 0;
    }

    /** The next `n` bytes, or nothing and no movement. */
    method TakeBytes(n: int) returns (r: Option<seq<Byte>>)
      requires pos <= |buf|
      modifies this`pos
      ensures pos <= |buf|
      ensures r.Some? <==> 0 <= n <= |buf| - old(pos)
      ensures r.Some? ==> pos == old(pos) + n && r.value == buf[old(pos)..pos]
      ensures r.None? ==> pos == old(pos)
    {
      if n < 0 || n > |buf| - pos { return None; }
      r := Some(buf[pos..pos + n]);
      pos := pos + n;
    }

    /** Enter a composite node. The counter stays raised when the guard trips. */
    method Descend() returns (ok: bool)
      requires depth <= MAX_DECODE_DEPTH
      modifies this`depth
      ensures depth == old(depth) + 1
      ensures ok <==> depth <= MAX_DECODE_DEPTH
    {
      depth := depth + 1;
      ok := depth <= MAX_DECODE_DEPTH;
    }

    method ReadSeqLen(minElem: nat) returns (r: Option<nat>)
      requires pos <= |buf|
      modifies this`pos
      ensures old(pos) <= pos <= |buf|
      ensures r == (match ReadLen(buf, old(pos), minElem) case Ok(n, _) => Some(n) case Err => None)
      ensures r.Some? ==> pos == old(pos) + 4
    {
      var t := TakeBytes(4);
      if t.None? { return None; }
      var n := FromLE(t.value);
      if n > |buf| - pos { return None; }
      if minElem > 0 && n > (|buf| - pos) / minElem { return None; }
      r := Some(n);
    }

    method ReadScalar(node: Node) returns (r: Option<Value>)
      requires pos <= |buf| && !node.Composite()
      modifies this`pos
      ensures old(pos) <= pos <= |buf|
      ensures r == (match ReadLeaf(node, buf, old(pos)) case Ok(v, _) => Some(v) case Err => None)
      ensures r.Some? ==> pos == ReadLeaf(node, buf, old(pos)).pos
    {
      hide FromLE, IntFromLE, Utf8.Decode, IsNaN;
      r := None;
      match node
      case IntNode(n, s) =>
        var t := TakeBytes(n);
        if t.Some? { r := Some(VInt(IntFromLE(t.value, s))); }
      case FloatNode(d) =>
        var t := TakeBytes(FloatSize(d));
        if t.Some? && !IsNaN(t.value, d) { r := Some(VFloat(t.value)); }
      case BoolNode =>
        var t := TakeBytes(1);
        if t.Some? && t.value[0] <= 1 { r := Some(VBool(t.value[0] == 1)); }
      case StrNode =>
        var n := ReadSeqLen(1);
        if n.Some? {
          var t := TakeBytes(n.value);
          var s := Utf8.Decode(t.value);
          if s.Some? { r := Some(VStr(s.value)); }
        }
      case BytesNode =>
        var n := ReadSeqLen(1);
        if n.Some? {
          var t := TakeBytes(n.value);
          r := Some(VBytes(t.value));
        }
      case FixedBytesNode(n) =>
        var t := TakeBytes(n);
        if t.Some? { r := Some(VBytes(t.value)); }
      case PubkeyNode =>
        var t := TakeBytes(32);
        if t.Some? { r := Some(VPubkey(t.value)); }
    }

    /** Total on every byte string and every graph, cyclic or not: the walk ends, moves only
        forward inside the buffer, and a successful read leaves the depth as it found it. */
    method ReadNode(g: Graph, node: Node) returns (r: Option<Value>)
      requires Valid()
      modifies this
      ensures old(pos) <= pos <= |buf|
      ensures r == (match Read(g, node, buf, old(pos), old(depth)) case Ok(v, _) => Some(v) case Err => None)
      ensures r.Some? ==> pos == Read(g, node, buf, old(pos), old(depth)).pos && depth == old(depth)
      ensures r.None? ==> old(depth) <= depth <= old(depth) + 1
      decreases MAX_DECODE_DEPTH - depth, node, 2
    {
      if !node.Composite() {
        r := ReadScalar(node);
        return;
      }
      var ok := Descend();
      if !ok { return None; }
      r := ReadBody(g, node);
      depth := depth - 1;
    }

    /** The body of a composite node, one level down. */
    method ReadBody(g: Graph, node: Node) returns (r: Option<Value>)
      requires Valid() && node.Composite() && depth > 0
      modifies this
      ensures old(pos) <= pos <= |buf|
      ensures r == (match Read(g, node, buf, old(pos), old(depth) - 1) case Ok(v, _) => Some(v) case Err => None)
      ensures r.Some? ==> pos == Read(g, node, buf, old(pos), old(depth) - 1).pos && depth == old(depth)
      ensures r.None? ==> old(depth) <= depth <= old(depth) + 1
      decreases MAX_DECODE_DEPTH - depth + 1, node, 1
    {
      r := None;
      match node
      case OptionNode(inner) =>
        var t := TakeBytes(1);
        if t.Some? && t.value[0] == 0 { r := Some(VNone); }
        else if t.Some? && t.value[0] == 1 { r := ReadNode(g, inner); }
      case OptNode(inner) =>
        var t := TakeBytes(1);
        if t.Some? && t.value[0] == 0 { r := Some(VNone); }
        else if t.Some? && t.value[0] == 1 {
          var v := ReadNode(g, inner);
          if v.Some? { r := Some(VOpt(v.value)); }
        }
      case VecNode(elem) => r := ReadVec(g, elem);
      case FixedArrayNode(elem, n) =>
        var vs := ReadNodes(g, Repeat(elem, n));
        if vs.Some? { r := Some(VList(vs.value)); }
      case Defined(id) =>
        if id in g { r := ReadDefined(g, id); }
    }

    method ReadVec(g: Graph, elem: Node) returns (r: Option<Value>)
      requires Valid() && depth > 0
      modifies this
      ensures old(pos) <= pos <= |buf|
      ensures r == (match Read(g, VecNode(elem), buf, old(pos), old(depth) - 1) case Ok(v, _) => Some(v) case Err => None)
      ensures r.Some? ==> pos == Read(g, VecNode(elem), buf, old(pos), old(depth) - 1).pos && depth == old(depth)
      ensures r.None? ==> old(depth) <= depth <= old(depth) + 1
      decreases MAX_DECODE_DEPTH - depth + 1, VecNode(elem), 0
    {
      r := None;
      var n := ReadSeqLen(MinWire(g, elem, {}));
      if n.Some? {
        var vs := ReadNodes(g, Repeat(elem, n.value));
        if vs.Some? { r := Some(VList(vs.value)); }
      }
    }

    method ReadDefined(g: Graph, id: nat) returns (r: Option<Value>)
      requires Valid() && id in g && depth > 0
      modifies this
      ensures old(pos) <= pos <= |buf|
      ensures r == (match Read(g, Defined(id), buf, old(pos), old(depth) - 1) case Ok(v, _) => Some(v) case Err => None)
      ensures r.Some? ==> pos == Read(g, Defined(id), buf, old(pos), old(depth) - 1).pos && depth == old(depth)
      ensures r.None? ==> old(depth) <= depth <= old(depth) + 1
      decreases MAX_DECODE_DEPTH - depth + 1, Defined(id), 0
    {
      r := None;
      match g[id]
      case StructDef(fields) =>
        var vs := ReadNodes(g, fields);
        if vs.Some? { r := Some(VStruct(id, vs.value)); }
      case IntEnumDef(values) =>
        var t := TakeBytes(1);
        if t.Some? && t.value[0] in values { r := Some(VIntEnum(id, t.value[0])); }
      case BorshEnumDef(variants) =>
        var t := TakeBytes(1);
        if t.None? { return; }
        var fields := Lookup(variants, t.value[0]);
        if fields.None? { return; }
        var vs := ReadNodes(g, fields.value);
        if vs.Some? { r := Some(VVariant(id, t.value[0], vs.value)); }
    }

    method ReadNodes(g: Graph, nodes: seq<Node>) returns (r: Option<seq<Value>>)
      requires Valid()
      modifies this
      ensures old(pos) <= pos <= |buf|
      ensures r == (match ReadAll(g, nodes, buf, old(pos), old(depth)) case Ok(vs, _) => Some(vs) case Err => None)
      ensures r.Some? ==> pos == ReadAll(g, nodes, buf, old(pos), old(depth)).pos && depth == old(depth)
      ensures r.None? ==> old(depth) <= depth <= old(depth) + 1
      decreases MAX_DECODE_DEPTH - depth, nodes, 0
    {
      hide Read;
      var vs: seq<Value> := [];
      assert nodes[0..] == nodes;
      OntoNothing(ReadAll(g, nodes, buf, pos, depth));
      for i := 0 to |nodes|
        invariant old(pos) <= pos <= |buf| && depth == old(depth)
        invariant ReadAll(g, nodes, buf, old(pos), depth) == Onto(vs, ReadAll(g, nodes[i..], buf, pos, depth))
      {
        var v := ReadNode(g, nodes[i]);
        assert nodes[i..][0] == nodes[i] && nodes[i..][1..] == nodes[i + 1..];
        if v.None? { return None; }
        OntoOnto(vs, [v.value], ReadAll(g, nodes[i + 1..], buf, pos, depth));
        vs := vs + [v.value];
      }
      assert nodes[|nodes|..] == [] && vs + [] == vs;
      r := Some(vs);
    }
  }

  /** A parse of later elements, seen from the start of the list. */
  ghost function Onto(done: seq<Value>, rest: Parsed<seq<Value>>): Parsed<seq<Value>> {
    match rest
    case Ok(vs, p) => Ok(done + vs, p)
    case Err => Err
  }

  lemma OntoNothing(rest: Parsed<seq<Value>>)
    ensures Onto([], rest) == rest
  {
    if rest.Ok? { assert [] + rest.value == rest.value; }
  }

  lemma OntoOnto(a: seq<Value>, b: seq<Value>, rest: Parsed<seq<Value>>)
    ensures Onto(a, Onto(b, rest)) == Onto(a + b, rest)
  {
    if rest.Ok? { assert a + (b + rest.value) == a + b + rest.value; }
  }

  lemma JoinNothing(rest: Option<seq<Byte>>)
    ensures Join([], rest) == rest
  {
    if rest.Some? { assert [] + rest.value == rest.value; }
  }

  lemma JoinJoin(a: seq<Byte>, b: seq<Byte>, rest: Option<seq<Byte>>)
    ensures Join(a, Join(b, rest)) == Join(a + b, rest)
  {
    if rest.Some? { assert a + (b + rest.value) == a + b + rest.value; }
  }

  class Encoder {
    var out: seq<Byte>

    constructor ()
      ensures out == []
    {
      out := [];
    }

    /** Appends exactly `Write(g, node, v)`, or stops with an error where it has no bytes. */
    method WriteNode(g: Graph, node: Node, v: Value) returns (ok: bool)
      modifies this
      ensures ok <==> Write(g, node, v).Some?
      ensures ok ==> out == old(out) + Write(g, node, v).value
      ensures old(out) <= out
      decreases v, node, 1
    {
      hide WriteLeaf, ToLE, Pow256;
      ok := false;
      match node
      case OptionNode(inner) =>
        if v.VNone? { out := out + [0]; return true; }
        out := out + [1];
        ok := WriteNode(g, inner, v);
      case OptNode(inner) =>
        if v.VNone? { out := out + [0]; return true; }
        if !v.VOpt? { return; }
        out := out + [1];
        ok := WriteNode(g, inner, v.inner);
      case VecNode(elem) =>
        if !v.VList? || |v.elems| >= Pow256(4) { return; }
        out := out + ToLE(|v.elems|, 4);
        ok := WriteNodes(g, Repeat(elem, |v.elems|), v.elems);
      case FixedArrayNode(elem, n) =>
        if !v.VList? || |v.elems| != n { return; }
        ok := WriteNodes(g, Repeat(elem, n), v.elems);
      case Defined(id) => ok := WriteDefined(g, id, v);
      case _ =>
        var b := WriteLeaf(node, v);
        if b.Some? { out := out + b.value; ok := true; }
    }

    method WriteDefined(g: Graph, id: nat, v: Value) returns (ok: bool)
      modifies this
      ensures ok <==> Write(g, Defined(id), v).Some?
      ensures ok ==> out == old(out) + Write(g, Defined(id), v).value
      ensures old(out) <= out
      decreases v, Defined(id), 0
    {
      ok := false;
      if id !in g { return; }
      match g[id]
      case StructDef(fields) =>
        if v.VStruct? && v.id == id && |v.fields| == |fields| { ok := WriteNodes(g, fields, v.fields); }
      case IntEnumDef(_) =>
        if v.VIntEnum? && 0 <= v.tag < 256 { out := out + [v.tag]; ok := true; }
        else if v.VInt? && 0 <= v.i < 256 { out := out + [v.i]; ok := true; }
      case BorshEnumDef(variants) =>
        if v.VVariant? && v.id == id && 0 <= v.tag < 256 {
          var fields := Lookup(variants, v.tag);
          if fields.None? || |fields.value| != |v.fields| { return; }
          out := out + [v.tag];
          ok := WriteNodes(g, fields.value, v.fields);
        }
    }

    method WriteNodes(g: Graph, nodes: seq<Node>, vs: seq<Value>) returns (ok: bool)
      requires |nodes| == |vs|
      modifies this
      ensures ok <==> WriteAll(g, nodes, vs).Some?
      ensures ok ==> out == old(out) + WriteAll(g, nodes, vs).value
      ensures old(out) <= out
      decreases vs, 0
    {
      hide Write;
      ghost var done: seq<Byte> := [];
      assert nodes[0..] == nodes && vs[0..] == vs;
      JoinNothing(WriteAll(g, nodes, vs));
      for i := 0 to |nodes|
        invariant out == old(out) + done
        invariant WriteAll(g, nodes, vs) == Join(done, WriteAll(g, nodes[i..], vs[i..]))
      {
        assert nodes[i..][0] == nodes[i] && nodes[i..][1..] == nodes[i + 1..];
        assert vs[i..][0] == vs[i] && vs[i..][1..] == vs[i + 1..];
        ok := WriteNode(g, nodes[i], vs[i]);
        if !ok { return; }
        JoinJoin(done, Write(g, nodes[i], vs[i]).value, WriteAll(g, nodes[i + 1..], vs[i + 1..]));
        done := done + Write(g, nodes[i], vs[i]).value;
      }
      ok := true;
    }
  }
}
