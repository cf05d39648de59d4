/** Generated modules end to end: an IDL schema, emitted as classes and compiled through the type
    cache, reads and writes exactly the Borsh encodings of its values. */
module Generated {
  import opened Wrappers
  import opened Bytes
  import opened Codec
  import opened CodecTheorems
  import opened CodecCanonical
  import opened Lowering
  import opened LoweringTheorems
  import opened TypeCache
  import TypeCacheSound

  /** The annotations the generator emits for a list of fields. */
  predicate EmittedAll(ts: seq<Idl>, usable: string -> bool, anns: seq<Ann>) {
    |ts| == |anns| && forall i :: 0 <= i < |ts| ==> MapType(ts[i], usable) == Some(anns[i])
  }

  predicate EmittedDef(def: IdlDef, usable: string -> bool, c: Class) {
    match def
    case IdlStruct(fields) => c.Dataclass? && EmittedAll(fields, usable, c.fields)
    case IdlUnitEnum(tags) => c == IntEnumClass(tags)
    case IdlEnum(variants) =>
      && c.BorshEnumClass? && |variants| == |c.variants|
      && forall i :: 0 <= i < |variants| ==>
           variants[i].tag == c.variants[i].tag && EmittedAll(variants[i].fields, usable, c.variants[i].fields)
  }

  predicate Emitted(s: Schema, usable: string -> bool, cs: Classes) {
    cs.Keys == s.Keys && forall name :: name in s ==> EmittedDef(s[name], usable, cs[name])
  }

  lemma EmittedLowered(ts: seq<Idl>, usable: string -> bool, anns: seq<Ann>, ids: map<string, nat>, nodes: seq<Node>)
    requires EmittedAll(ts, usable, anns) && CompiledAll(anns, ids, nodes)
    ensures LoweredAll(ts, usable, ids, nodes) && PlainNodes(nodes)
  {
    forall i | 0 <= i < |ts| ensures Lower(ts[i], usable, ids) == Some(nodes[i]) && PlainNode(nodes[i]) {
      LoweredPlain(ts[i], usable, ids, false);
    }
  }

  lemma EmittedDefLowered(def: IdlDef, usable: string -> bool, c: Class, ids: map<string, nat>, node: TypeDef)
    requires EmittedDef(def, usable, c) && CompiledClass(c, ids, node)
    ensures LoweredDef(def, usable, ids, node) && PlainDef(node)
  {
    match def
    case IdlStruct(fields) => EmittedLowered(fields, usable, c.fields, ids, node.fields);
    case IdlUnitEnum(_) =>
    case IdlEnum(variants) =>
      forall i | 0 <= i < |variants|
        ensures LoweredAll(variants[i].fields, usable, ids, node.variants[i].fields) && PlainNodes(node.variants[i].fields)
      {
        EmittedLowered(variants[i].fields, usable, c.variants[i].fields, ids, node.variants[i].fields);
      }
  }

  /** The nodes a faithful cache points at. */
  function Compiled(st: State): (g: Graph)
    requires forall n :: n in st.ids ==> st.ids[n] in st.heap
    ensures forall n :: n in st.ids ==> st.ids[n] in g && g[st.ids[n]] == st.heap[st.ids[n]]
    ensures forall i :: i in g ==> i in st.ids.Values
  {
    map i | i in st.ids.Values :: st.heap[i]
  }

  /** A compiled schema is the lowering of the IDL, and every type in it decodes canonically. */
  lemma SchemaCompiled(s: Schema, usable: string -> bool, cs: Classes, st: State)
    requires Emitted(s, usable, cs) && Faithful(cs, st, {}) && st.ids.Keys == s.Keys
    ensures LoweredSchema(s, usable, st.ids, Compiled(st)) && Plain(Compiled(st))
  {
    var g := Compiled(st);
    forall name | name in s
      ensures LoweredDef(s[name], usable, st.ids, g[st.ids[name]]) && PlainDef(g[st.ids[name]])
    {
      EmittedDefLowered(s[name], usable, cs[name], st.ids, g[st.ids[name]]);
    }
    forall id | id in g ensures PlainDef(g[id]) {
      var name :| name in st.ids && st.ids[name] == id;
    }
  }

  /** Compiling every class generated for a schema whose types refer only to one another and are all
      supported, in any order, ends with the lowering of the IDL. */
  lemma SchemaCompiles(s: Schema, usable: string -> bool, cs: Classes, calls: seq<string>)
    requires Emitted(s, usable, cs) && Closed(cs, cs.Keys) && forall n :: n in calls <==> n in cs
    ensures var st := TypeCacheSound.After(cs, calls);
            && Faithful(cs, st, {}) && st.ids.Keys == s.Keys
            && LoweredSchema(s, usable, st.ids, Compiled(st)) && Plain(Compiled(st))
  {
    hide CompiledClass, Closed, LoweredDef, EmittedDef, PlainDef;
    TypeCacheSound.AllCompiled(cs, calls);
    var st := TypeCacheSound.After(cs, calls);
    forall n | n in cs ensures n in st.ids {
      var i :| 0 <= i < |calls| && calls[i] == n;
    }
    assert st.ids.Keys == s.Keys;
    SchemaCompiled(s, usable, cs, st);
  }

  /** For every IDL value: its Python carrier is encoded as its Borsh bytes; those bytes decode to
      that carrier, and so to no other value's, exactly if it meets the depth and length guards;
      and any instruction data accepted for the type is the encoding of what it decodes to. */
  lemma GeneratedRoundTrip(s: Schema, usable: string -> bool, cs: Classes, st: State, t: Idl, v: IdlValue, w: IdlValue, buf: seq<Byte>)
    requires Emitted(s, usable, cs) && Faithful(cs, st, {}) && st.ids.Keys == s.Keys
    requires Lower(t, usable, st.ids).Some? && Borsh(s, t, v).Some? && Borsh(s, t, w).Some?
    ensures var g, node, c := Compiled(st), Lower(t, usable, st.ids).value, Carrier(s, st.ids, t, v, false);
            && Encode(g, node, c) == Borsh(s, t, v)
            && WellTyped(g, node, c)
            && (Decode(g, node, Borsh(s, t, v).value, IxData) == Some(c) <==>
                  Depth(g, node, c) <= MAX_DECODE_DEPTH && VecsFit(g, node, c, 0))
            && (Carrier(s, st.ids, t, w, false) == c ==> w == v)
            && (Decode(g, node, buf, IxData).Some? ==> Encode(g, node, Decode(g, node, buf, IxData).value) == Some(buf))
  {
    hide Emitted, CompiledClass, LoweredDef, Plain, Borsh, Carrier, WellTyped, Depth, VecsFit, Decode, Write, PlainNode;
    var g, node, c := Compiled(st), Lower(t, usable, st.ids).value, Carrier(s, st.ids, t, v, false);
    SchemaCompiled(s, usable, cs, st);
    Wire(s, usable, st.ids, g, t, v, false);
    DecodeEncode(g, node, c, []);
    if Carrier(s, st.ids, t, w, false) == c { CarrierInjective(s, st.ids, t, v, w, false); }
    LoweredPlain(t, usable, st.ids, false);
    if Decode(g, node, buf, IxData).Some? { EncodeDecode(g, node, buf); }
  }
}
