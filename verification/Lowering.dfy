/** From IDL type nodes to annotations (`map_type`) and on to codec nodes (`compile_field`). */
module Lowering {
  import opened Wrappers
  import opened Bytes
  import opened Codec
  import Utf8

  /** A normalized IDL type node. An array length that is not an integer is `None`. */
  datatype Idl =
    | Scalar(name: string)
    | OptionOf(inner: Idl)
    | VecOf(inner: Idl)
    | ArrayOf(elem: Idl, length: Option<nat>)
    | DefinedAs(name: string)
    | COptionOf(inner: Idl)
    | GenericParam(name: string)
    | OtherNode

  /** A resolved Python annotation, as `compile_field` sees it. */
  datatype Ann =
    | Alias(name: string)
    | BareInt
    | BareFloat
    | BoolAnn
    | StrAnn
    | BytesAnn
    | AnnotatedBytes(length: nat)
    | AnnotatedList(elem: Ann, length: nat)
    | OptionalAnn(inner: Ann)
    | OptAnn(inner: Ann)
    | ListAnn(elem: Ann)
    | UnionAnn
    | COptionAnn
    | ClassAnn(name: string)

  const IDL_WIDTHS: set<string> :=
    {"u8", "u16", "u32", "u64", "u128", "i8", "i16", "i32", "i64", "i128", "f32", "f64"}

  function Lift(f: Ann -> Ann, a: Option<Ann>): Option<Ann> {
    if a.Some? then Some(f(a.value)) else None
  }

  /** `map_type`, `_map_option` and `_map_array`; `None` is a `GenError`. `usable` decides which
      defined names are Python identifiers. */
  function MapType(node: Idl, usable: string -> bool): Option<Ann>
    decreases node, 1
  {
    match node
    case Scalar(name) =>
      if name in IDL_WIDTHS || name == "pubkey" then Some(Alias(name))
      else if name == "bool" then Some(BoolAnn)
      else if name == "string" then Some(StrAnn)
      else if name == "bytes" then Some(BytesAnn)
      else None
    case OptionOf(inner) =>
      if inner.OptionOf? then Lift(a => OptAnn(a), MapOptChain(inner, usable))
      else Lift(a => OptionalAnn(a), MapType(inner, usable))
    case VecOf(inner) => Lift(a => ListAnn(a), MapType(inner, usable))
    case ArrayOf(elem, length) =>
      if length.None? then None
      else if elem == Scalar("u8") then Some(AnnotatedBytes(length.value))
      else Lift(a => AnnotatedList(a, length.value), MapType(elem, usable))
    case DefinedAs(name) => if name != "" && usable(name) then Some(ClassAnn(name)) else None
    case _ => None
  }

  /** `_map_opt_chain`: an option inside an `Opt[...]` chain. */
  function MapOptChain(node: Idl, usable: string -> bool): Option<Ann>
    requires node.OptionOf?
    decreases node, 0
  {
    if node.inner.OptionOf? then Lift(a => OptAnn(a), MapOptChain(node.inner, usable))
    else Lift(a => OptAnn(a), MapType(node.inner, usable))
  }

  /** The width aliases: `(bytes, signed)` of an integer alias. */
  function IntSpec(name: string): Option<(nat, bool)> {
    if name == "u8" then Some((1, false)) else if name == "i8" then Some((1, true))
    else if name == "u16" then Some((2, false)) else if name == "i16" then Some((2, true))
    else if name == "u32" then Some((4, false)) else if name == "i32" then Some((4, true))
    else if name == "u64" then Some((8, false)) else if name == "i64" then Some((8, true))
    else if name == "u128" then Some((16, false)) else if name == "i128" then Some((16, true))
    else if name == "u256" then Some((32, false)) else if name == "i256" then Some((32, true))
    else None
  }

  function AliasNode(name: string): Option<Node> {
    var spec := IntSpec(name);
    if spec.Some? then Some(IntNode(spec.value.0, spec.value.1))
    else if name == "f32" then Some(FloatNode(false))
    else if name == "f64" then Some(FloatNode(true))
    else if name == "pubkey" then Some(PubkeyNode)
    else None
  }

  function LiftNode(f: Node -> Node, n: Option<Node>): Option<Node> {
    if n.Some? then Some(f(n.value)) else None
  }

  /** `compile_field` once every class it names is in the type cache. */
  function CompileAnn(ann: Ann, ids: map<string, nat>): Option<Node> {
    match ann
    case Alias(name) => AliasNode(name)
    case BoolAnn => Some(BoolNode)
    case StrAnn => Some(StrNode)
    case BytesAnn => Some(BytesNode)
    case AnnotatedBytes(n) => Some(FixedBytesNode(n))
    case AnnotatedList(elem, n) => LiftNode(e => FixedArrayNode(e, n), CompileAnn(elem, ids))
    case OptionalAnn(inner) => LiftNode(e => OptionNode(e), CompileAnn(inner, ids))
    case OptAnn(inner) => LiftNode(e => OptNode(e), CompileAnn(inner, ids))
    case ListAnn(elem) => LiftNode(e => VecNode(e), CompileAnn(elem, ids))
    case ClassAnn(name) => if name in ids then Some(Defined(ids[name])) else None
    case BareInt => None
    case BareFloat => None
    case UnionAnn => None
    case COptionAnn => None
  }

  /** The node an IDL type ends up as. */
  function Lower(node: Idl, usable: string -> bool, ids: map<string, nat>): Option<Node> {
    var ann := MapType(node, usable);
    if ann.Some? then CompileAnn(ann.value, ids) else None
  }

  // ----- the wire format, from the Borsh specification ----------------------------------------

  datatype IdlDef =
    | IdlStruct(fields: seq<Idl>)
    | IdlUnitEnum(tags: set<int>)
    | IdlEnum(variants: seq<IdlVariant>)

  datatype IdlVariant = IdlVariant(tag: int, fields: seq<Idl>)

  type Schema = map<string, IdlDef>

  /** Values of IDL types, with every option level explicit. */
  datatype IdlValue =
    | IInt(i: int)
    | IFloat(bits: seq<Byte>)
    | IBool(b: bool)
    | IStr(chars: seq<int>)
    | IBytes(raw: seq<Byte>)
    | IKey(raw: seq<Byte>)
    | INone
    | ISome(inner: IdlValue)
    | ISeq(elems: seq<IdlValue>)
    | IStruct(fields: seq<IdlValue>)
    | IUnit(tag: int)
    | IVariant(tag: int, fields: seq<IdlValue>)

  function RepeatIdl(t: Idl, n: nat): (r: seq<Idl>)
    ensures |r| == n && forall i :: 0 <= i < n ==> r[i] == t
  {
    seq(n, _ => t)
  }

  function LookupIdl(variants: seq<IdlVariant>, tag: int): Option<seq<Idl>> {
    if variants == [] then None
    else if variants[0].tag == tag then Some(variants[0].fields)
    else LookupIdl(variants[1..], tag)
  }

  function ScalarBytes(name: string, v: IdlValue): Option<seq<Byte>> {
    if name == "bool" then (if v.IBool? then Some([if v.b then 1 else 0]) else None)
    else if name == "string" then
      (if v.IStr? && Utf8.Encode(v.chars).Some? then Prefixed(Utf8.Encode(v.chars).value) else None)
    else if name == "bytes" then (if v.IBytes? then Prefixed(v.raw) else None)
    else if name == "pubkey" then (if v.IKey? && |v.raw| == 32 then Some(v.raw) else None)
    else if name == "f32" then
      (if v.IFloat? && |v.bits| == FloatSize(false) && !IsNaN(v.bits, false) then Some(v.bits) else None)
    else if name == "f64" then
      (if v.IFloat? && |v.bits| == FloatSize(true) && !IsNaN(v.bits, true) then Some(v.bits) else None)
    else if IntSpec(name).Some? && v.IInt? then IntToLE(v.i, IntSpec(name).value.0, IntSpec(name).value.1)
    else None
  }

  /** The Borsh encoding of a value: options are a tag byte and the payload at every level,
      vectors a `u32` count, arrays bare elements, enums an ordinal byte. `None` off the type. */
  function Borsh(s: Schema, t: Idl, v: IdlValue): Option<seq<Byte>>
    decreases v, t, 0
  {
    match t
    case Scalar(name) => ScalarBytes(name, v)
    case OptionOf(inner) =>
      if v.INone? then Some([0]) else if v.ISome? then Join([1], Borsh(s, inner, v.inner)) else None
    case VecOf(inner) =>
      if v.ISeq? && |v.elems| < Pow256(4) then
        Join(ToLE(|v.elems|, 4), BorshAll(s, RepeatIdl(inner, |v.elems|), v.elems))
      else None
    case ArrayOf(elem, n) =>
      if v.ISeq? && n.Some? && |v.elems| == n.value then BorshAll(s, RepeatIdl(elem, n.value), v.elems) else None
    case DefinedAs(name) =>
      if name !in s then None
      else (match s[name]
            case IdlStruct(fields) =>
              if v.IStruct? && |v.fields| == |fields| then BorshAll(s, fields, v.fields) else None
            case IdlUnitEnum(tags) => if v.IUnit? && 0 <= v.tag < 256 && v.tag in tags then Some([v.tag]) else None
            case IdlEnum(variants) =>
              if v.IVariant? && 0 <= v.tag < 256 && LookupIdl(variants, v.tag).Some?
                 && |LookupIdl(variants, v.tag).value| == |v.fields|
              then Join([v.tag], BorshAll(s, LookupIdl(variants, v.tag).value, v.fields))
              else None)
    case _ => None
  }

  function BorshAll(s: Schema, ts: seq<Idl>, vs: seq<IdlValue>): Option<seq<Byte>>
    requires |ts| == |vs|
    decreases vs, 0
  {
    if vs == [] then Some([])
    else
      var first := Borsh(s, ts[0], vs[0]);
      if first.None? then None else Join(first.value, BorshAll(s, ts[1..], vs[1..]))
  }

  // ----- the Python carrier of an IDL value ---------------------------------------------------

  /** Options in a chain of two or more are carried by `Opt`; a lone option is the bare value
      or `None`. `[u8; N]` is carried as `bytes`. */
  function Carrier(s: Schema, ids: map<string, nat>, t: Idl, v: IdlValue, chained: bool): Value
    requires Borsh(s, t, v).Some? && s.Keys <= ids.Keys
    decreases v, t, 0
  {
    match t
    case Scalar(name) => ScalarCarrier(v)
    case OptionOf(inner) =>
      if v.INone? then VNone
      else if chained || inner.OptionOf? then VOpt(Carrier(s, ids, inner, v.inner, inner.OptionOf?))
      else Carrier(s, ids, inner, v.inner, false)
    case VecOf(inner) => VList(Carriers(s, ids, RepeatIdl(inner, |v.elems|), v.elems))
    case ArrayOf(elem, n) =>
      if elem == Scalar("u8") then VBytes(BorshAll(s, RepeatIdl(elem, n.value), v.elems).value)
      else VList(Carriers(s, ids, RepeatIdl(elem, n.value), v.elems))
    case DefinedAs(name) =>
      (match s[name]
       case IdlStruct(fields) => VStruct(ids[name], Carriers(s, ids, fields, v.fields))
       case IdlUnitEnum(_) => VIntEnum(ids[name], v.tag)
       case IdlEnum(variants) =>
         VVariant(ids[name], v.tag, Carriers(s, ids, LookupIdl(variants, v.tag).value, v.fields)))
    case _ => VNone
  }

  function ScalarCarrier(v: IdlValue): Value {
    match v
    case IInt(i) => VInt(i)
    case IFloat(bits) => VFloat(bits)
    case IBool(b) => VBool(b)
    case IStr(chars) => VStr(chars)
    case IBytes(raw) => VBytes(raw)
    case IKey(raw) => VPubkey(raw)
    case _ => VNone
  }

  function Carriers(s: Schema, ids: map<string, nat>, ts: seq<Idl>, vs: seq<IdlValue>): (r: seq<Value>)
    requires |ts| == |vs| && BorshAll(s, ts, vs).Some? && s.Keys <= ids.Keys
    ensures |r| == |vs|
    decreases vs, 0
  {
    if vs == [] then []
    else [Carrier(s, ids, ts[0], vs[0], false)] + Carriers(s, ids, ts[1..], vs[1..])
  }

  // ----- the compiled schema ------------------------------------------------------------------

  /** Every field type of a definition was lowered to the node at its place. */
  predicate LoweredAll(ts: seq<Idl>, usable: string -> bool, ids: map<string, nat>, nodes: seq<Node>) {
    |ts| == |nodes| && forall i :: 0 <= i < |ts| ==> Lower(ts[i], usable, ids) == Some(nodes[i])
  }

  predicate LoweredDef(def: IdlDef, usable: string -> bool, ids: map<string, nat>, node: TypeDef) {
    match def
    case IdlStruct(fields) => node.StructDef? && LoweredAll(fields, usable, ids, node.fields)
    case IdlUnitEnum(tags) => node == IntEnumDef(tags)
    case IdlEnum(variants) =>
      && node.BorshEnumDef? && |variants| == |node.variants|
      && forall i :: 0 <= i < |variants| ==>
           variants[i].tag == node.variants[i].tag && LoweredAll(variants[i].fields, usable, ids, node.variants[i].fields)
  }

  /** The graph holds the compiled form of every definition of the schema. */
  predicate LoweredSchema(s: Schema, usable: string -> bool, ids: map<string, nat>, g: Graph) {
    && s.Keys <= ids.Keys
    && (forall name :: name in s ==> ids[name] in g && LoweredDef(s[name], usable, ids, g[ids[name]]))
  }
}
