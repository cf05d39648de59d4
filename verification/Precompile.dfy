/** The precompile instruction assembler and the way a verifier reads its output. */
module Precompile {
  import opened Wrappers
  import opened Bytes

  // ----- curves -------------------------------------------------------------------------------

  datatype Curve = Ed25519 | Secp256k1 | Secp256r1 {
    function IdentitySize(): nat {
      match this
      case Ed25519 => 32
      case Secp256k1 => 20
      case Secp256r1 => 33
    }

    /** Bytes of an instruction index: secp256k1 uses one, the others two. */
    function IndexWidth(): nat {
      if Secp256k1? then 1 else 2
    }

    function HeaderSize(): nat {
      if IndexWidth() == 2 then 2 else 1
    }

    function OffsetsSize(): nat {
      if IndexWidth() == 2 then 14 else 11
    }

    predicate HasRecovery() {
      Secp256k1?
    }

    /** Bytes of a stored signature. */
    function SignatureSize(): nat {
      if HasRecovery() then SIGNATURE_SIZE + 1 else SIGNATURE_SIZE
    }
  }

  const CURRENT_INSTRUCTION: nat := 0xFFFF

  const SIGNATURE_SIZE: nat := 64

  // ----- claims -------------------------------------------------------------------------------

  /** Where a component's bytes are: in the instruction itself, or in another one, named as an object
      or by position, at a given offset or wherever they are found. */
  datatype Placement = Inline | Ref(target: Option<nat>, index: Option<int>, offset: Option<int>, size: Option<int>)

  datatype Claim = Claim(curve: Curve, identity: seq<Byte>, signature: seq<Byte>, message: seq<Byte>, recovery: Option<Byte>,
                         identityAt: Placement, signatureAt: Placement, messageAt: Placement)

  /** An entry of a transaction under construction: a finished instruction, known by the object it
      is, or a precompile call still to be resolved. */
  datatype Ix =
    | Concrete(id: nat, data: seq<Byte>)
    | Deferred(curve: Curve, claims: seq<Claim>)

  /** `_signature_blob`. */
  function SignatureBlob(curve: Curve, c: Claim): (r: Option<seq<Byte>>)
    ensures r.Some? ==> |r.value| == curve.SignatureSize()
  {
    if |c.signature| != SIGNATURE_SIZE then None
    else if !curve.HasRecovery() then Some(c.signature)
    else if c.recovery.None? then None
    else Some(c.signature + [c.recovery.value])
  }

  predicate CheckClaim(curve: Curve, c: Claim) {
    c.curve == curve && |c.identity| == curve.IdentitySize()
  }

  // ----- search -------------------------------------------------------------------------------

  predicate Occurs(data: seq<Byte>, value: seq<Byte>, at: nat) {
    at + |value| <= |data| && data[at..at + |value|] == value
  }

  /** `bytes.find(value, start)`. */
  function Find(data: seq<Byte>, value: seq<Byte>, start: nat): (r: Option<nat>)
    ensures r.Some? ==> start <= r.value && Occurs(data, value, r.value) && forall k :: start <= k < r.value ==> !Occurs(data, value, k)
    ensures r.None? ==> forall k :: start <= k <= |data| ==> !Occurs(data, value, k)
    decreases |data| - start
  {
    if start > |data| then None
    else if Occurs(data, value, start) then Some(start)
    else Find(data, value, start + 1)
  }

  /** The first entry that is the object `id`. */
  function IndexOf(ixs: seq<Ix>, id: nat): (r: Option<nat>)
    ensures r.Some? ==> r.value < |ixs| && ixs[r.value].Concrete? && ixs[r.value].id == id
    ensures r.None? ==> forall k :: 0 <= k < |ixs| ==> !(ixs[k].Concrete? && ixs[k].id == id)
  {
    if ixs == [] then None
    else
      var front := IndexOf(ixs[..|ixs| - 1], id);
      var last := ixs[|ixs| - 1];
      if front.Some? then front
      else if last.Concrete? && last.id == id then Some(|ixs| - 1)
      else None
  }

  /** The position a reference names, if it names one. */
  function NamedIndex(at: Placement, ixs: seq<Ix>): (r: Option<int>)
    requires at.Ref?
  {
    if at.target.Some? == at.index.Some? then None
    else if at.index.Some? then at.index
    else
      var idx := IndexOf(ixs, at.target.value);
      if idx.None? then None else Some(idx.value)
  }

  /** A finished instruction at this position. */
  predicate FinishedAt(ixs: seq<Ix>, idx: int) {
    0 <= idx < |ixs| && ixs[idx].Concrete?
  }

  /** `_resolve_ref`: the named position, and the given offset or else the only place there where the
      value occurs. */
  function ResolveRef(at: Placement, value: seq<Byte>, ixs: seq<Ix>): (r: Option<(int, int)>)
    requires at.Ref?
    ensures r.Some? ==> NamedIndex(at, ixs) == Some(r.value.0)
    ensures r.Some? && at.offset.Some? ==> r.value.1 == at.offset.value
    ensures r.Some? && at.offset.None? ==>
              && FinishedAt(ixs, r.value.0) && r.value.1 >= 0 && Occurs(ixs[r.value.0].data, value, r.value.1)
              && forall k :: 0 <= k <= |ixs[r.value.0].data| && Occurs(ixs[r.value.0].data, value, k) ==> k == r.value.1
  {
    var idx := NamedIndex(at, ixs);
    if idx.None? then None
    else if at.offset.Some? then Some((idx.value, at.offset.value))
    else if !FinishedAt(ixs, idx.value) then None
    else
      var data := ixs[idx.value].data;
      var first := Find(data, value, 0);
      if first.None? || Find(data, value, first.value + 1).Some? then None
      else Some((idx.value, first.value))
  }

  // ----- assembly -----------------------------------------------------------------------------

  /** Offset, instruction index and size of a component. */
  datatype Place = Place(offset: int, index: int, size: int)

  /** A component is placed: at the cursor with its bytes appended, or where the reference found it. */
  function PlaceOne(at: Placement, value: seq<Byte>, cursor: nat, inlineIx: nat, ixs: seq<Ix>): (r: Option<(Place, seq<Byte>)>) {
    match at
    case Inline => Some((Place(cursor, inlineIx, |value|), value))
    case Ref(_, _, _, size) =>
      var found := ResolveRef(at, value, ixs);
      if found.None? then None
      else Some((Place(found.value.1, found.value.0, if size.Some? then size.value else |value|), []))
  }

  datatype Entry = Entry(identity: Place, signature: Place, message: Place)

  predicate Fits(v: int, width: nat) {
    0 <= v < Pow256(width)
  }

  /** `_pack_offsets`: `None` where a field does not fit its slot. */
  function PackOffsets(curve: Curve, e: Entry): (r: Option<seq<Byte>>)
    ensures r.Some? ==> |r.value| == curve.OffsetsSize()
  {
    var w := curve.IndexWidth();
    if Fits(e.signature.offset, 2) && Fits(e.signature.index, w) && Fits(e.identity.offset, 2) && Fits(e.identity.index, w)
       && Fits(e.message.offset, 2) && Fits(e.message.size, 2) && Fits(e.message.index, w)
    then Some(ToLE(e.signature.offset, 2) + ToLE(e.signature.index, w) + ToLE(e.identity.offset, 2) + ToLE(e.identity.index, w)
              + ToLE(e.message.offset, 2) + ToLE(e.message.size, 2) + ToLE(e.message.index, w))
    else None
  }

  /** What has been assembled: the offset structs and the inline data. */
  datatype Parts = Parts(structs: seq<Byte>, body: seq<Byte>)

  /** One claim: its components in the order identity, signature, message, then its struct. */
  function AddClaim(curve: Curve, p: Parts, start: nat, c: Claim, inlineIx: nat, ixs: seq<Ix>): (r: Option<(Entry, Parts)>)
    ensures r.Some? ==> |r.value.1.structs| == |p.structs| + curve.OffsetsSize()
  {
    var blob := SignatureBlob(curve, c);
    if !CheckClaim(curve, c) || blob.None? then None
    else
      var identity := PlaceOne(c.identityAt, c.identity, start + |p.body|, inlineIx, ixs);
      if identity.None? then None
      else
        var body1 := p.body + identity.value.1;
        var signature := PlaceOne(c.signatureAt, blob.value, start + |body1|, inlineIx, ixs);
        if signature.None? then None
        else
          var body2 := body1 + signature.value.1;
          var message := PlaceOne(c.messageAt, c.message, start + |body2|, inlineIx, ixs);
          if message.None? then None
          else
            var e := Entry(identity.value.0, signature.value.0, message.value.0);
            var packed := PackOffsets(curve, e);
            if packed.None? then None else Some((e, Parts(p.structs + packed.value, body2 + message.value.1)))
  }

  function AddClaims(curve: Curve, start: nat, claims: seq<Claim>, inlineIx: nat, ixs: seq<Ix>): (r: Option<(seq<Entry>, Parts)>)
    ensures r.Some? ==> |r.value.0| == |claims| && |r.value.1.structs| == curve.OffsetsSize() * |claims|
  {
    if claims == [] then Some(([], Parts([], [])))
    else
      var n := |claims| - 1;
      assert curve.OffsetsSize() * (n + 1) == curve.OffsetsSize() * n + curve.OffsetsSize();
      var front := AddClaims(curve, start, claims[..n], inlineIx, ixs);
      if front.None? then None
      else
        var last := AddClaim(curve, front.value.1, start, claims[n], inlineIx, ixs);
        if last.None? then None else Some((front.value.0 + [last.value.0], last.value.1))
  }

  function DataStart(curve: Curve, count: nat): nat {
    curve.HeaderSize() + curve.OffsetsSize() * count
  }

  /** The index inline components carry: the self sentinel, or the instruction's own position. */
  function InlineIx(curve: Curve, self: nat): nat {
    if curve.HasRecovery() then self else CURRENT_INSTRUCTION
  }

  function Header(curve: Curve, count: Byte): (r: seq<Byte>)
    ensures |r| == curve.HeaderSize() && r[0] == count
  {
    if curve.HeaderSize() == 2 then [count, 0] else [count]
  }

  /** `build_instruction_data`; `None` where it raises. */
  function BuildData(curve: Curve, claims: seq<Claim>, self: nat, ixs: seq<Ix>): Option<seq<Byte>> {
    var parts := AddClaims(curve, DataStart(curve, |claims|), claims, InlineIx(curve, self), ixs);
    if parts.None? || |claims| > 255 then None
    else Some(Header(curve, |claims|) + parts.value.1.structs + parts.value.1.body)
  }

  /** `materialize`: every entry with its final data. */
  function Materialize(ixs: seq<Ix>, n: nat): (r: Option<seq<seq<Byte>>>)
    requires n <= |ixs|
    ensures r.Some? ==> |r.value| == n
  {
    if n == 0 then Some([])
    else
      var front := Materialize(ixs, n - 1);
      if front.None? then None
      else
        match ixs[n - 1]
        case Concrete(_, data) => Some(front.value + [data])
        case Deferred(curve, claims) =>
          var data := BuildData(curve, claims, n - 1, ixs);
          if data.None? then None else Some(front.value + [data.value])
  }

  // ----- the verifier's reading ---------------------------------------------------------------

  function Field(data: seq<Byte>, at: nat, width: nat): nat
    requires at + width <= |data|
  {
    FromLE(data[at..at + width])
  }

  /** One offset struct as the runtime reads it. */
  function ReadStruct(curve: Curve, data: seq<Byte>, at: nat): Entry
    requires at + curve.OffsetsSize() <= |data|
  {
    var w := curve.IndexWidth();
    Entry(identity := Place(Field(data, at + 2 + w, 2), Field(data, at + 4 + w, w), curve.IdentitySize()),
          signature := Place(Field(data, at, 2), Field(data, at + 2, w), curve.SignatureSize()),
          message := Place(Field(data, at + 4 + 2 * w, 2), Field(data, at + 8 + 2 * w, w), Field(data, at + 6 + 2 * w, 2)))
  }

  /** The bytes a place points at in the transaction whose instructions are `txs`. */
  function Follow(curve: Curve, p: Place, self: nat, txs: seq<seq<Byte>>): Option<seq<Byte>> {
    var ix := if !curve.HasRecovery() && p.index == CURRENT_INSTRUCTION then self else p.index;
    if !(0 <= ix < |txs|) || p.offset < 0 || p.size < 0 || p.offset + p.size > |txs[ix]| then None
    else Some(txs[ix][p.offset..p.offset + p.size])
  }
}
