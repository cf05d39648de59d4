/** Lowering preserves meaning: the bytes are the Borsh encoding, and no two IDL values share a
    Python carrier. */
module LoweringTheorems {
  import opened Wrappers
  import opened Bytes
  import opened Codec
  import opened Lowering
  import opened CodecCanonical

  /** The annotation of `t`, alone or inside an `Opt[...]` chain. */
  function AnnOf(t: Idl, usable: string -> bool, chained: bool): Option<Ann>
    requires chained ==> t.OptionOf?
  {
    if chained then MapOptChain(t, usable) else MapType(t, usable)
  }

  function NodeOf(t: Idl, usable: string -> bool, ids: map<string, nat>, chained: bool): Option<Node>
    requires chained ==> t.OptionOf?
  {
    var ann := AnnOf(t, usable, chained);
    if ann.Some? then CompileAnn(ann.value, ids) else None
  }

  // ----- option chains ------------------------------------------------------------------------

  function Options(k: nat, base: Idl): Idl {
    if k == 0 then base else OptionOf(Options(k - 1, base))
  }

  function Opts(k: nat, base: Ann): Ann {
    if k == 0 then base else OptAnn(Opts(k - 1, base))
  }

  /** One option is `Optional`; k >= 2 nested options are exactly k levels of `Opt`. */
  lemma {:induction false} OptionChain(k: nat, base: Idl, usable: string -> bool)
    requires k >= 1 && !base.OptionOf? && MapType(base, usable).Some?
    ensures MapType(Options(k, base), usable) ==
            Some(if k == 1 then OptionalAnn(MapType(base, usable).value) else Opts(k, MapType(base, usable).value))
    ensures MapOptChain(Options(k, base), usable) == Some(Opts(k, MapType(base, usable).value))
  {
    if k > 1 {
      OptionChain(k - 1, base, usable);
    } else {
      assert Options(1, base) == OptionOf(base);
      assert Opts(1, MapType(base, usable).value) == OptAnn(MapType(base, usable).value);
    }
  }

  // ----- lowered types are canonical ----------------------------------------------------------

  /** A lowered type never puts an `OptionNode` directly around a nullable node. */
  lemma {:induction false} LoweredPlain(t: Idl, usable: string -> bool, ids: map<string, nat>, chained: bool)
    requires (chained ==> t.OptionOf?) && NodeOf(t, usable, ids, chained).Some?
    ensures PlainNode(NodeOf(t, usable, ids, chained).value)
    ensures NodeOf(t, usable, ids, chained).value.Nullable() <==> t.OptionOf?
    decreases t
  {
    match t
    case OptionOf(inner) => LoweredPlain(inner, usable, ids, inner.OptionOf?);
    case VecOf(inner) => LoweredPlain(inner, usable, ids, false);
    case ArrayOf(elem, n) => if elem != Scalar("u8") { LoweredPlain(elem, usable, ids, false); }
    case _ =>
  }

  // ----- the bytes are the Borsh bytes --------------------------------------------------------

  lemma LookupLowered(variants: seq<IdlVariant>, nodes: seq<Variant>, usable: string -> bool, ids: map<string, nat>, tag: int)
    requires |variants| == |nodes|
    requires forall i :: 0 <= i < |variants| ==>
               variants[i].tag == nodes[i].tag && LoweredAll(variants[i].fields, usable, ids, nodes[i].fields)
    requires LookupIdl(variants, tag).Some?
    ensures Lookup(nodes, tag).Some? && LoweredAll(LookupIdl(variants, tag).value, usable, ids, Lookup(nodes, tag).value)
  {
    if variants[0].tag != tag { LookupLowered(variants[1..], nodes[1..], usable, ids, tag); }
  }

  lemma ScalarWire(name: string, v: IdlValue, g: Graph, usable: string -> bool, ids: map<string, nat>)
    requires ScalarBytes(name, v).Some? && Lower(Scalar(name), usable, ids).Some?
    ensures Write(g, Lower(Scalar(name), usable, ids).value, ScalarCarrier(v)) == ScalarBytes(name, v)
    ensures WellTyped(g, Lower(Scalar(name), usable, ids).value, ScalarCarrier(v))
  {
  }

  lemma {:induction false} BytesWire(s: Schema, vs: seq<IdlValue>)
    requires BorshAll(s, RepeatIdl(Scalar("u8"), |vs|), vs).Some?
    ensures |BorshAll(s, RepeatIdl(Scalar("u8"), |vs|), vs).value| == |vs|
    decreases vs
  {
    if vs != [] {
      var ts := RepeatIdl(Scalar("u8"), |vs|);
      assert ts[1..] == RepeatIdl(Scalar("u8"), |vs[1..]|);
      BytesWire(s, vs[1..]);
    }
  }

  lemma RepeatLowered(t: Idl, usable: string -> bool, ids: map<string, nat>, n: nat)
    requires Lower(t, usable, ids).Some?
    ensures LoweredAll(RepeatIdl(t, n), usable, ids, Repeat(Lower(t, usable, ids).value, n))
  {
  }

  /** Writing the carrier of a value with the lowered node gives exactly its Borsh bytes, and
      the carrier is a value of that node. */
  lemma {:induction false} Wire(s: Schema, usable: string -> bool, ids: map<string, nat>, g: Graph, t: Idl, v: IdlValue, chained: bool)
    requires LoweredSchema(s, usable, ids, g) && (chained ==> t.OptionOf?)
    requires NodeOf(t, usable, ids, chained).Some? && Borsh(s, t, v).Some?
    ensures var node, c := NodeOf(t, usable, ids, chained).value, Carrier(s, ids, t, v, chained);
            Write(g, node, c) == Borsh(s, t, v) && WellTyped(g, node, c)
    decreases v, t, 1
  {
    match t
    case Scalar(name) => ScalarWire(name, v, g, usable, ids);
    case OptionOf(inner) => OptionWire(s, usable, ids, g, inner, v, chained);
    case VecOf(inner) => VecWire(s, usable, ids, g, inner, v);
    case ArrayOf(elem, n) => ArrayWire(s, usable, ids, g, elem, n, v);
    case DefinedAs(name) => DefinedWire(s, usable, ids, g, name, v);
    case _ =>
  }

  lemma {:induction false} VecWire(s: Schema, usable: string -> bool, ids: map<string, nat>, g: Graph, inner: Idl, v: IdlValue)
    requires LoweredSchema(s, usable, ids, g)
    requires Lower(VecOf(inner), usable, ids).Some? && Borsh(s, VecOf(inner), v).Some?
    ensures var node, c := Lower(VecOf(inner), usable, ids).value, Carrier(s, ids, VecOf(inner), v, false);
            Write(g, node, c) == Borsh(s, VecOf(inner), v) && WellTyped(g, node, c)
    decreases v, VecOf(inner), 0
  {
    RepeatLowered(inner, usable, ids, |v.elems|);
    WireAll(s, usable, ids, g, RepeatIdl(inner, |v.elems|), v.elems, Repeat(Lower(inner, usable, ids).value, |v.elems|));
  }

  lemma {:induction false} ArrayWire(s: Schema, usable: string -> bool, ids: map<string, nat>, g: Graph, elem: Idl, n: Option<nat>, v: IdlValue)
    requires LoweredSchema(s, usable, ids, g)
    requires Lower(ArrayOf(elem, n), usable, ids).Some? && Borsh(s, ArrayOf(elem, n), v).Some?
    ensures var node, c := Lower(ArrayOf(elem, n), usable, ids).value, Carrier(s, ids, ArrayOf(elem, n), v, false);
            Write(g, node, c) == Borsh(s, ArrayOf(elem, n), v) && WellTyped(g, node, c)
    decreases v, ArrayOf(elem, n), 0
  {
    if elem == Scalar("u8") {
      BytesWire(s, v.elems);
    } else {
      RepeatLowered(elem, usable, ids, n.value);
      WireAll(s, usable, ids, g, RepeatIdl(elem, n.value), v.elems, Repeat(Lower(elem, usable, ids).value, n.value));
    }
  }

  lemma {:induction false} OptionWire(s: Schema, usable: string -> bool, ids: map<string, nat>, g: Graph, inner: Idl, v: IdlValue, chained: bool)
    requires LoweredSchema(s, usable, ids, g)
    requires NodeOf(OptionOf(inner), usable, ids, chained).Some? && Borsh(s, OptionOf(inner), v).Some?
    ensures var node, c := NodeOf(OptionOf(inner), usable, ids, chained).value, Carrier(s, ids, OptionOf(inner), v, chained);
            Write(g, node, c) == Borsh(s, OptionOf(inner), v) && WellTyped(g, node, c)
    decreases v, OptionOf(inner), 0
  {
    if v.ISome? {
      Wire(s, usable, ids, g, inner, v.inner, inner.OptionOf?);
      if !inner.OptionOf? { NotNoneCarrier(s, ids, inner, v.inner); }
    }
  }

  lemma {:induction false} DefinedWire(s: Schema, usable: string -> bool, ids: map<string, nat>, g: Graph, name: string, v: IdlValue)
    requires LoweredSchema(s, usable, ids, g)
    requires Lower(DefinedAs(name), usable, ids).Some? && Borsh(s, DefinedAs(name), v).Some?
    ensures var c := Carrier(s, ids, DefinedAs(name), v, false);
            Write(g, Defined(ids[name]), c) == Borsh(s, DefinedAs(name), v) && WellTyped(g, Defined(ids[name]), c)
    decreases v, DefinedAs(name), 0
  {
    var def := g[ids[name]];
    match s[name]
    case IdlStruct(fields) => WireAll(s, usable, ids, g, fields, v.fields, def.fields);
    case IdlUnitEnum(_) =>
    case IdlEnum(variants) =>
      LookupLowered(variants, def.variants, usable, ids, v.tag);
      WireAll(s, usable, ids, g, LookupIdl(variants, v.tag).value, v.fields, Lookup(def.variants, v.tag).value);
  }

  lemma {:induction false} WireAll(s: Schema, usable: string -> bool, ids: map<string, nat>, g: Graph, ts: seq<Idl>, vs: seq<IdlValue>, nodes: seq<Node>)
    requires |ts| == |vs| && LoweredSchema(s, usable, ids, g) && LoweredAll(ts, usable, ids, nodes)
    requires BorshAll(s, ts, vs).Some?
    ensures var cs := Carriers(s, ids, ts, vs);
            WriteAll(g, nodes, cs) == BorshAll(s, ts, vs) && AllTyped(g, nodes, cs)
    decreases vs, 0
  {
    if vs != [] {
      hide Write, WellTyped, Carrier;
      Wire(s, usable, ids, g, ts[0], vs[0], false);
      WireAll(s, usable, ids, g, ts[1..], vs[1..], nodes[1..]);
      var cs := Carriers(s, ids, ts, vs);
      assert cs[0] == Carrier(s, ids, ts[0], vs[0], false) && cs[1..] == Carriers(s, ids, ts[1..], vs[1..]);
    }
  }

  // ----- carriers keep values apart -----------------------------------------------------------

  lemma NotNoneCarrier(s: Schema, ids: map<string, nat>, t: Idl, v: IdlValue)
    requires Borsh(s, t, v).Some? && s.Keys <= ids.Keys && !t.OptionOf?
    ensures Carrier(s, ids, t, v, false) != VNone
  {
  }

  lemma {:induction false} BytesInjective(s: Schema, vs: seq<IdlValue>, ws: seq<IdlValue>)
    requires |vs| == |ws|
    requires BorshAll(s, RepeatIdl(Scalar("u8"), |vs|), vs).Some? && BorshAll(s, RepeatIdl(Scalar("u8"), |ws|), ws).Some?
    requires BorshAll(s, RepeatIdl(Scalar("u8"), |vs|), vs) == BorshAll(s, RepeatIdl(Scalar("u8"), |ws|), ws)
    ensures vs == ws
    decreases vs
  {
    if vs != [] {
      var ts, n := RepeatIdl(Scalar("u8"), |vs|), |vs| - 1;
      assert ts[1..] == RepeatIdl(Scalar("u8"), n);
      var a, b := Borsh(s, ts[0], vs[0]).value, Borsh(s, ts[0], ws[0]).value;
      var a', b' := BorshAll(s, ts[1..], vs[1..]).value, BorshAll(s, ts[1..], ws[1..]).value;
      assert a == (a + a')[..1] && b == (b + b')[..1];
      assert a' == (a + a')[1..] && b' == (b + b')[1..];
      IntRoundTrip(vs[0].i, 1, false);
      IntRoundTrip(ws[0].i, 1, false);
      BytesInjective(s, vs[1..], ws[1..]);
      assert vs == [vs[0]] + vs[1..] && ws == [ws[0]] + ws[1..];
    }
  }

  /** Distinct values of a type have distinct carriers; in particular `Some(None)` and `None`. */
  lemma {:induction false} CarrierInjective(s: Schema, ids: map<string, nat>, t: Idl, v: IdlValue, w: IdlValue, chained: bool)
    requires s.Keys <= ids.Keys && Borsh(s, t, v).Some? && Borsh(s, t, w).Some?
    requires Carrier(s, ids, t, v, chained) == Carrier(s, ids, t, w, chained)
    ensures v == w
    decreases v, t, 0
  {
    match t
    case OptionOf(inner) =>
      if v.ISome? && w.ISome? {
        CarrierInjective(s, ids, inner, v.inner, w.inner, inner.OptionOf?);
      } else if v.ISome? && !chained && !inner.OptionOf? {
        NotNoneCarrier(s, ids, inner, v.inner);
      } else if w.ISome? && !chained && !inner.OptionOf? {
        NotNoneCarrier(s, ids, inner, w.inner);
      }
    case VecOf(inner) => CarriersInjective(s, ids, RepeatIdl(inner, |v.elems|), v.elems, w.elems);
    case ArrayOf(elem, n) =>
      if elem == Scalar("u8") { BytesInjective(s, v.elems, w.elems); }
      else { CarriersInjective(s, ids, RepeatIdl(elem, n.value), v.elems, w.elems); }
    case DefinedAs(name) =>
      match s[name] {
        case IdlStruct(fields) => CarriersInjective(s, ids, fields, v.fields, w.fields);
        case IdlUnitEnum(_) =>
        case IdlEnum(variants) => CarriersInjective(s, ids, LookupIdl(variants, v.tag).value, v.fields, w.fields);
      }
    case _ =>
  }

  lemma {:induction false} CarriersInjective(s: Schema, ids: map<string, nat>, ts: seq<Idl>, vs: seq<IdlValue>, ws: seq<IdlValue>)
    requires |ts| == |vs| == |ws| && s.Keys <= ids.Keys
    requires BorshAll(s, ts, vs).Some? && BorshAll(s, ts, ws).Some?
    requires Carriers(s, ids, ts, vs) == Carriers(s, ids, ts, ws)
    ensures vs == ws
    decreases vs, 0
  {
    if vs != [] {
      var cs, ds := Carriers(s, ids, ts, vs), Carriers(s, ids, ts, ws);
      assert cs[0] == ds[0] && cs[1..] == ds[1..];
      assert cs[1..] == Carriers(s, ids, ts[1..], vs[1..]) && ds[1..] == Carriers(s, ids, ts[1..], ws[1..]);
      CarrierInjective(s, ids, ts[0], vs[0], ws[0], false);
      CarriersInjective(s, ids, ts[1..], vs[1..], ws[1..]);
      assert vs == [vs[0]] + vs[1..] && ws == [ws[0]] + ws[1..];
    }
  }
}
