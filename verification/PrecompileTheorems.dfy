/** The layout is right: reading the assembled instruction gives back every claim. */
module PrecompileTheorems {
  import opened Wrappers
  import opened Bytes
  import opened Precompile

  // ----- offset structs -----------------------------------------------------------------------

  lemma SliceOfSlice<T>(s: seq<T>, at: nat, n: nat, i: nat, j: nat)
    requires at + n <= |s| && i <= j <= n
    ensures s[at..at + n][i..j] == s[at + i..at + j]
  {
    var t := s[at..at + n];
    assert forall k :: 0 <= k < j - i ==> t[i..j][k] == t[i + k] == s[at + (i + k)];
  }

  lemma Middle<T>(a: seq<T>, b: seq<T>, c: seq<T>)
    ensures (a + b + c)[|a|..|a| + |b|] == b
  {
  }

  lemma FieldOf(data: seq<Byte>, at: nat, front: seq<Byte>, v: nat, width: nat, back: seq<Byte>)
    requires v < Pow256(width)
    requires var packed := front + ToLE(v, width) + back; at + |packed| <= |data| && data[at..at + |packed|] == packed
    ensures Field(data, at + |front|, width) == v
  {
    hide ToLE, FromLE, Pow256;
    var packed := front + ToLE(v, width) + back;
    var i := |front|;
    SliceOfSlice(data, at, |packed|, i, i + width);
    Middle(front, ToLE(v, width), back);
    FromToLE(v, width);
  }

  /** What of an entry is in its struct: the sizes of identity and signature are the curve's. */
  function AsRead(curve: Curve, e: Entry): Entry {
    e.(identity := e.identity.(size := curve.IdentitySize()), signature := e.signature.(size := curve.SignatureSize()))
  }

  /** A struct is read as it was packed. */
  lemma StructRead(curve: Curve, e: Entry, data: seq<Byte>, at: nat)
    requires PackOffsets(curve, e).Some? && at + curve.OffsetsSize() <= |data|
    requires data[at..at + curve.OffsetsSize()] == PackOffsets(curve, e).value
    ensures ReadStruct(curve, data, at) == AsRead(curve, e)
  {
    hide ToLE, FromLE, Pow256, Field;
    var w := curve.IndexWidth();
    var a, b, c := ToLE(e.signature.offset, 2), ToLE(e.signature.index, w), ToLE(e.identity.offset, 2);
    var d, f, g := ToLE(e.identity.index, w), ToLE(e.message.offset, 2), ToLE(e.message.size, 2);
    var h := ToLE(e.message.index, w);
    var packed := a + b + c + d + f + g + h;
    assert PackOffsets(curve, e) == Some(packed);
    Regroup(a, b, c, d, f, g, h);
    FieldOf(data, at, [], e.signature.offset, 2, b + c + d + f + g + h);
    FieldOf(data, at, a, e.signature.index, w, c + d + f + g + h);
    FieldOf(data, at, a + b, e.identity.offset, 2, d + f + g + h);
    FieldOf(data, at, a + b + c, e.identity.index, w, f + g + h);
    FieldOf(data, at, a + b + c + d, e.message.offset, 2, g + h);
    FieldOf(data, at, a + b + c + d + f, e.message.size, 2, h);
    FieldOf(data, at, a + b + c + d + f + g, e.message.index, w, []);
  }

  lemma Regroup<T>(a: seq<T>, b: seq<T>, c: seq<T>, d: seq<T>, f: seq<T>, g: seq<T>, h: seq<T>)
    ensures var packed := a + b + c + d + f + g + h;
            && packed == [] + a + (b + c + d + f + g + h)
            && packed == a + b + (c + d + f + g + h)
            && packed == a + b + c + (d + f + g + h)
            && packed == a + b + c + d + (f + g + h)
            && packed == a + b + c + d + f + (g + h)
            && packed == a + b + c + d + f + g + h + []
  {
  }

  // ----- placement ----------------------------------------------------------------------------

  /** The place is as it should be: the value's own in the body from `start` on, or the reference's. */
  predicate Right(p: Place, at: Placement, value: seq<Byte>, start: nat, body: seq<Byte>, inlineIx: nat, ixs: seq<Ix>) {
    match at
    case Inline => p.size == |value| && p.index == inlineIx && start <= p.offset && Occurs(body, value, p.offset - start)
    case Ref(_, _, _, size) =>
      ResolveRef(at, value, ixs) == Some((p.index, p.offset)) && p.size == if size.Some? then size.value else |value|
  }

  predicate RightEntry(curve: Curve, e: Entry, c: Claim, start: nat, body: seq<Byte>, inlineIx: nat, ixs: seq<Ix>) {
    && CheckClaim(curve, c) && SignatureBlob(curve, c).Some?
    && Right(e.identity, c.identityAt, c.identity, start, body, inlineIx, ixs)
    && Right(e.signature, c.signatureAt, SignatureBlob(curve, c).value, start, body, inlineIx, ixs)
    && Right(e.message, c.messageAt, c.message, start, body, inlineIx, ixs)
  }

  lemma RightGrows(p: Place, at: Placement, value: seq<Byte>, start: nat, body: seq<Byte>, more: seq<Byte>, inlineIx: nat, ixs: seq<Ix>)
    requires Right(p, at, value, start, body, inlineIx, ixs)
    ensures Right(p, at, value, start, body + more, inlineIx, ixs)
  {
    if at.Inline? {
      var i := p.offset - start;
      assert (body + more)[i..i + |value|] == body[i..i + |value|];
    }
  }

  lemma PlacedRight(at: Placement, value: seq<Byte>, start: nat, body: seq<Byte>, inlineIx: nat, ixs: seq<Ix>)
    requires PlaceOne(at, value, start + |body|, inlineIx, ixs).Some?
    ensures var (p, bytes) := PlaceOne(at, value, start + |body|, inlineIx, ixs).value;
            Right(p, at, value, start, body + bytes, inlineIx, ixs)
  {
    if at.Inline? { assert (body + value)[|body|..|body| + |value|] == value; }
  }

  lemma AddClaimRight(curve: Curve, p: Parts, start: nat, c: Claim, inlineIx: nat, ixs: seq<Ix>)
    requires AddClaim(curve, p, start, c, inlineIx, ixs).Some?
    ensures var (e, q) := AddClaim(curve, p, start, c, inlineIx, ixs).value;
            && p.body <= q.body && RightEntry(curve, e, c, start, q.body, inlineIx, ixs)
            && PackOffsets(curve, e).Some? && q.structs == p.structs + PackOffsets(curve, e).value
  {
    hide PlaceOne, PackOffsets, Right;
    var blob := SignatureBlob(curve, c).value;
    var identity := PlaceOne(c.identityAt, c.identity, start + |p.body|, inlineIx, ixs).value;
    PlacedRight(c.identityAt, c.identity, start, p.body, inlineIx, ixs);
    var body1 := p.body + identity.1;
    var signature := PlaceOne(c.signatureAt, blob, start + |body1|, inlineIx, ixs).value;
    PlacedRight(c.signatureAt, blob, start, body1, inlineIx, ixs);
    var body2 := body1 + signature.1;
    var message := PlaceOne(c.messageAt, c.message, start + |body2|, inlineIx, ixs).value;
    PlacedRight(c.messageAt, c.message, start, body2, inlineIx, ixs);
    RightGrows(identity.0, c.identityAt, c.identity, start, body1, signature.1, inlineIx, ixs);
    RightGrows(identity.0, c.identityAt, c.identity, start, body2, message.1, inlineIx, ixs);
    RightGrows(signature.0, c.signatureAt, blob, start, body2, message.1, inlineIx, ixs);
  }

  /** Every entry is right in the final body, and its struct stands at its place. */
  lemma {:induction false} AddClaimsRight(curve: Curve, start: nat, claims: seq<Claim>, inlineIx: nat, ixs: seq<Ix>)
    requires AddClaims(curve, start, claims, inlineIx, ixs).Some?
    ensures var (es, q) := AddClaims(curve, start, claims, inlineIx, ixs).value;
            forall k :: 0 <= k < |claims| ==>
              && RightEntry(curve, es[k], claims[k], start, q.body, inlineIx, ixs)
              && PackOffsets(curve, es[k]).Some?
              && Occurs(q.structs, PackOffsets(curve, es[k]).value, curve.OffsetsSize() * k)
  {
    hide AddClaim, PackOffsets, RightEntry, Occurs;
    if claims != [] {
      var n := |claims| - 1;
      AddClaimsRight(curve, start, claims[..n], inlineIx, ixs);
      var (es, p) := AddClaims(curve, start, claims[..n], inlineIx, ixs).value;
      AddClaimRight(curve, p, start, claims[n], inlineIx, ixs);
      var (e, q) := AddClaim(curve, p, start, claims[n], inlineIx, ixs).value;
      forall k | 0 <= k < n
        ensures RightEntry(curve, es[k], claims[k], start, q.body, inlineIx, ixs)
        ensures Occurs(q.structs, PackOffsets(curve, es[k]).value, curve.OffsetsSize() * k)
      {
        assert claims[..n][k] == claims[k];
        EntryGrows(curve, es[k], claims[k], start, p.body, q.body, inlineIx, ixs);
        OccursGrows(p.structs, PackOffsets(curve, e).value, PackOffsets(curve, es[k]).value, curve.OffsetsSize() * k);
      }
      OccursLast(p.structs, PackOffsets(curve, e).value);
    }
  }

  lemma OccursLast(data: seq<Byte>, value: seq<Byte>)
    ensures Occurs(data + value, value, |data|)
  {
    assert (data + value)[|data|..|data| + |value|] == value;
  }

  lemma OccursGrows(data: seq<Byte>, more: seq<Byte>, value: seq<Byte>, at: nat)
    requires Occurs(data, value, at)
    ensures Occurs(data + more, value, at)
  {
    assert (data + more)[at..at + |value|] == data[at..at + |value|];
  }

  lemma EntryGrows(curve: Curve, e: Entry, c: Claim, start: nat, body: seq<Byte>, body': seq<Byte>, inlineIx: nat, ixs: seq<Ix>)
    requires RightEntry(curve, e, c, start, body, inlineIx, ixs) && body <= body'
    ensures RightEntry(curve, e, c, start, body', inlineIx, ixs)
  {
    var more := body'[|body|..];
    assert body + more == body';
    RightGrows(e.identity, c.identityAt, c.identity, start, body, more, inlineIx, ixs);
    RightGrows(e.signature, c.signatureAt, SignatureBlob(curve, c).value, start, body, more, inlineIx, ixs);
    RightGrows(e.message, c.messageAt, c.message, start, body, more, inlineIx, ixs);
  }

  // ----- the transaction ----------------------------------------------------------------------

  lemma {:induction false} MaterializeIs(ixs: seq<Ix>, n: nat, i: nat)
    requires i < n <= |ixs| && Materialize(ixs, n).Some?
    ensures match ixs[i]
            case Concrete(_, data) => Materialize(ixs, n).value[i] == data
            case Deferred(curve, claims) => BuildData(curve, claims, i, ixs) == Some(Materialize(ixs, n).value[i])
  {
    hide BuildData;
    if i < n - 1 { MaterializeIs(ixs, n - 1, i); }
  }

  /** The instruction an index stands for. */
  function Meant(curve: Curve, index: int, self: nat): int {
    if !curve.HasRecovery() && index == CURRENT_INSTRUCTION then self else index
  }

  /** What a reference leads to is the value: always for inline components; for a reference, if the
      value stands at the resolved place of the finished transaction, and a given size is its size. */
  predicate Truthful(curve: Curve, at: Placement, value: seq<Byte>, sized: bool, self: nat, ixs: seq<Ix>, txs: seq<seq<Byte>>) {
    at.Ref? && ResolveRef(at, value, ixs).Some? ==>
      var (index, offset) := ResolveRef(at, value, ixs).value;
      var ix := Meant(curve, index, self);
      && 0 <= ix < |txs| && offset >= 0 && Occurs(txs[ix], value, offset)
      && (sized && at.size.Some? ==> at.size.value == |value|)
  }

  /** Finished instructions keep their data, and the one at `self` is its head and body. */
  predicate Assembled(ixs: seq<Ix>, txs: seq<seq<Byte>>, self: nat, head: seq<Byte>, body: seq<Byte>) {
    && |txs| == |ixs| && self < |ixs| && txs[self] == head + body
    && forall i :: 0 <= i < |ixs| && ixs[i].Concrete? ==> txs[i] == ixs[i].data
  }

  /** A component is found where its place points exactly if its placement is truthful. `sized` says
      whether the size is read from the struct or is the curve's. */
  lemma FollowIff(curve: Curve, p: Place, at: Placement, value: seq<Byte>, sized: bool, head: seq<Byte>, body: seq<Byte>, self: nat, ixs: seq<Ix>, txs: seq<seq<Byte>>)
    requires Assembled(ixs, txs, self, head, body)
    requires Right(p, at, value, |head|, body, InlineIx(curve, self), ixs) && (at.Ref? && sized ==> p.size >= 0)
    ensures Follow(curve, if sized then p else p.(size := |value|), self, txs) == Some(value) <==>
            Truthful(curve, at, value, sized, self, ixs, txs)
  {
    hide ResolveRef;
    if at.Inline? {
      var i := p.offset - |head|;
      assert (head + body)[p.offset..p.offset + |value|] == body[i..i + |value|];
    }
  }

  /** A component that is searched for is truthful, if its reference carries no size of its own and
      does not lead to the instruction whose index is the self sentinel, the 65536th. */
  lemma SearchedTruthful(curve: Curve, at: Placement, value: seq<Byte>, sized: bool, head: seq<Byte>, body: seq<Byte>, self: nat, ixs: seq<Ix>, txs: seq<seq<Byte>>)
    requires Assembled(ixs, txs, self, head, body) && at.Ref? && at.offset.None? && (sized ==> at.size.None?)
    requires !curve.HasRecovery() ==> NamedIndex(at, ixs) != Some(CURRENT_INSTRUCTION)
    ensures Truthful(curve, at, value, sized, self, ixs, txs)
  {
  }

  /** `blob` is the claim's signature as stored: its 64 bytes, and for secp256k1 the recovery id behind
      them. */
  predicate Stored(curve: Curve, c: Claim, blob: seq<Byte>) {
    if curve == Secp256k1 then |blob| == 65 && blob[..64] == c.signature && c.recovery == Some(blob[64])
    else |blob| == 64 && blob == c.signature
  }

  lemma StoredIs(curve: Curve, c: Claim)
    requires SignatureBlob(curve, c).Some?
    ensures forall blob :: Stored(curve, c, blob) <==> SignatureBlob(curve, c) == Some(blob)
  {
    forall blob ensures Stored(curve, c, blob) <==> SignatureBlob(curve, c) == Some(blob) {
      if curve == Secp256k1 && Stored(curve, c, blob) { assert blob == blob[..64] + [blob[64]]; }
    }
  }

  /** Where the `k`-th struct starts: behind a header of one or two bytes and structs of 11 or 14. */
  function StructAt(curve: Curve, k: nat): nat {
    if curve == Secp256k1 then 1 + 11 * k else 2 + 14 * k
  }

  /** The header: the number of claims, and for ed25519 and secp256r1 a zero. */
  predicate Headed(curve: Curve, data: seq<Byte>, count: nat) {
    if curve == Secp256k1 then |data| >= 1 && data[0] == count else |data| >= 2 && data[0] == count && data[1] == 0
  }

  lemma HeaderIs(curve: Curve, count: Byte, rest: seq<Byte>)
    ensures Headed(curve, Header(curve, count) + rest, count) && |Header(curve, count)| == StructAt(curve, 0)
  {
  }

  /** An inline component names this instruction: by the self sentinel, or for secp256k1 by position. */
  predicate OwnIndex(curve: Curve, at: Placement, p: Place, self: nat) {
    at.Inline? ==> p.index == if curve == Secp256k1 then self else 0xFFFF
  }

  /** For any number of claims on any curve, inline, searched in another instruction or placed by
      hand: the header counts them, and each component of the k-th struct leads to exactly the k-th
      claim's identity, stored signature or message in the finished transaction if and only if its
      placement is truthful. */
  lemma LayoutCorrect(ixs: seq<Ix>, self: nat, k: nat)
    requires self < |ixs| && ixs[self].Deferred? && k < |ixs[self].claims| && Materialize(ixs, |ixs|).Some?
    ensures var txs, curve, c := Materialize(ixs, |ixs|).value, ixs[self].curve, ixs[self].claims[k];
            var at := StructAt(curve, k);
            && at + curve.OffsetsSize() <= |txs[self]| && Headed(curve, txs[self], |ixs[self].claims|)
            && var e := ReadStruct(curve, txs[self], at);
               && OwnIndex(curve, c.identityAt, e.identity, self) && OwnIndex(curve, c.signatureAt, e.signature, self)
               && OwnIndex(curve, c.messageAt, e.message, self)
               && (Follow(curve, e.identity, self, txs) == Some(c.identity) <==> Truthful(curve, c.identityAt, c.identity, false, self, ixs, txs))
               && (exists blob :: Stored(curve, c, blob))
               && (forall blob :: Stored(curve, c, blob) ==>
                     (Follow(curve, e.signature, self, txs) == Some(blob) <==> Truthful(curve, c.signatureAt, blob, false, self, ixs, txs)))
               && (Follow(curve, e.message, self, txs) == Some(c.message) <==> Truthful(curve, c.messageAt, c.message, true, self, ixs, txs))
  {
    hide Materialize, AddClaims, PackOffsets, ReadStruct, Right, Follow, Truthful;
    var txs, curve, claims := Materialize(ixs, |ixs|).value, ixs[self].curve, ixs[self].claims;
    var c, start, inlineIx := claims[k], DataStart(curve, |claims|), InlineIx(curve, self);
    forall i | 0 <= i < |ixs| && ixs[i].Concrete? ensures txs[i] == ixs[i].data { MaterializeIs(ixs, |ixs|, i); }
    MaterializeIs(ixs, |ixs|, self);
    AddClaimsRight(curve, start, claims, inlineIx, ixs);
    var (es, q) := AddClaims(curve, start, claims, inlineIx, ixs).value;
    var head := Header(curve, |claims|) + q.structs;
    var at := StructAt(curve, k);
    HeaderIs(curve, |claims|, q.structs + q.body);
    assert Header(curve, |claims|) + (q.structs + q.body) == head + q.body;
    StoredIs(curve, c);
    assert Stored(curve, c, SignatureBlob(curve, c).value);
    StructInPlace(Header(curve, |claims|), q.structs, q.body, PackOffsets(curve, es[k]).value, curve.OffsetsSize() * k);
    assert txs[self] == head + q.body;
    StructRead(curve, es[k], txs[self], at);
    PackedSize(curve, es[k]);
    RightIndex(curve, es[k].identity, c.identityAt, c.identity, start, q.body, self, ixs);
    RightIndex(curve, es[k].signature, c.signatureAt, SignatureBlob(curve, c).value, start, q.body, self, ixs);
    RightIndex(curve, es[k].message, c.messageAt, c.message, start, q.body, self, ixs);
    FollowIff(curve, es[k].identity, c.identityAt, c.identity, false, head, q.body, self, ixs, txs);
    FollowIff(curve, es[k].signature, c.signatureAt, SignatureBlob(curve, c).value, false, head, q.body, self, ixs, txs);
    FollowIff(curve, es[k].message, c.messageAt, c.message, true, head, q.body, self, ixs, txs);
  }

  lemma RightIndex(curve: Curve, p: Place, at: Placement, value: seq<Byte>, start: nat, body: seq<Byte>, self: nat, ixs: seq<Ix>)
    requires Right(p, at, value, start, body, InlineIx(curve, self), ixs)
    ensures OwnIndex(curve, at, p, self)
  {
  }

  /** A component whose placement is left to the assembler: inline, or to be found in another
      instruction, which is not the one whose index is the self sentinel. */
  predicate Usual(curve: Curve, at: Placement, ixs: seq<Ix>) {
    at.Ref? ==>
      && at.offset.None? && at.size.None?
      && (!curve.HasRecovery() ==> NamedIndex(at, ixs) != Some(CURRENT_INSTRUCTION))
  }

  /** In a transaction that can be assembled, for any number of claims on any curve whose components
      are inline or to be found: the k-th struct leads to exactly the k-th claim's identity, stored
      signature and message. */
  lemma LayoutSound(ixs: seq<Ix>, self: nat, k: nat)
    requires self < |ixs| && ixs[self].Deferred? && k < |ixs[self].claims| && Materialize(ixs, |ixs|).Some?
    requires var curve, c := ixs[self].curve, ixs[self].claims[k];
             Usual(curve, c.identityAt, ixs) && Usual(curve, c.signatureAt, ixs) && Usual(curve, c.messageAt, ixs)
    ensures var txs, curve, c := Materialize(ixs, |ixs|).value, ixs[self].curve, ixs[self].claims[k];
            var at := StructAt(curve, k);
            && at + curve.OffsetsSize() <= |txs[self]| && Headed(curve, txs[self], |ixs[self].claims|)
            && var e := ReadStruct(curve, txs[self], at);
               && Follow(curve, e.identity, self, txs) == Some(c.identity)
               && Follow(curve, e.signature, self, txs).Some? && Stored(curve, c, Follow(curve, e.signature, self, txs).value)
               && Follow(curve, e.message, self, txs) == Some(c.message)
  {
    hide Materialize, ReadStruct, Follow, Truthful;
    LayoutCorrect(ixs, self, k);
    var txs, curve, c := Materialize(ixs, |ixs|).value, ixs[self].curve, ixs[self].claims[k];
    forall i | 0 <= i < |ixs| && ixs[i].Concrete? ensures txs[i] == ixs[i].data { MaterializeIs(ixs, |ixs|, i); }
    assert txs[self] == txs[self] + [];
    UsualTruthful(curve, c.identityAt, c.identity, false, txs[self], self, ixs, txs);
    var blob :| Stored(curve, c, blob);
    UsualTruthful(curve, c.signatureAt, blob, false, txs[self], self, ixs, txs);
    UsualTruthful(curve, c.messageAt, c.message, true, txs[self], self, ixs, txs);
  }

  lemma UsualTruthful(curve: Curve, at: Placement, value: seq<Byte>, sized: bool, data: seq<Byte>, self: nat, ixs: seq<Ix>, txs: seq<seq<Byte>>)
    requires Assembled(ixs, txs, self, data, []) && Usual(curve, at, ixs)
    ensures Truthful(curve, at, value, sized, self, ixs, txs)
  {
    if at.Ref? { SearchedTruthful(curve, at, value, sized, data, [], self, ixs, txs); }
  }

  lemma PackedSize(curve: Curve, e: Entry)
    requires PackOffsets(curve, e).Some?
    ensures e.message.size >= 0
  {
  }

  lemma StructInPlace(header: seq<Byte>, structs: seq<Byte>, body: seq<Byte>, packed: seq<Byte>, at: nat)
    requires Occurs(structs, packed, at)
    ensures Occurs(header + structs + body, packed, |header| + at)
  {
    assert (header + structs + body)[|header| + at..|header| + at + |packed|] == structs[at..at + |packed|];
  }

  // ----- position independence ----------------------------------------------------------------

  predicate AllInline(claims: seq<Claim>) {
    forall k :: 0 <= k < |claims| ==>
      claims[k].identityAt.Inline? && claims[k].signatureAt.Inline? && claims[k].messageAt.Inline?
  }

  lemma InlineClaim(curve: Curve, p: Parts, start: nat, c: Claim, inlineIx: nat, ixs: seq<Ix>, ixs': seq<Ix>)
    requires c.identityAt.Inline? && c.signatureAt.Inline? && c.messageAt.Inline?
    ensures AddClaim(curve, p, start, c, inlineIx, ixs) == AddClaim(curve, p, start, c, inlineIx, ixs')
  {
    hide PackOffsets, CheckClaim, SignatureBlob, ResolveRef;
  }

  lemma {:induction false} InlineClaims(curve: Curve, start: nat, claims: seq<Claim>, inlineIx: nat, ixs: seq<Ix>, ixs': seq<Ix>)
    requires AllInline(claims)
    ensures AddClaims(curve, start, claims, inlineIx, ixs) == AddClaims(curve, start, claims, inlineIx, ixs')
  {
    hide AddClaim;
    if claims != [] {
      var n := |claims| - 1;
      InlineClaims(curve, start, claims[..n], inlineIx, ixs, ixs');
      if AddClaims(curve, start, claims[..n], inlineIx, ixs).Some? {
        InlineClaim(curve, AddClaims(curve, start, claims[..n], inlineIx, ixs).value.1, start, claims[n], inlineIx, ixs, ixs');
      }
    }
  }

  /** With a self sentinel and inline components only, the instruction can be built ahead of the
      transaction: neither its position nor the other instructions matter. */
  lemma BuiltAhead(curve: Curve, claims: seq<Claim>, self: nat, ixs: seq<Ix>)
    requires AllInline(claims) && !curve.HasRecovery()
    ensures BuildData(curve, claims, self, ixs) == BuildData(curve, claims, 0, [])
  {
    InlineClaims(curve, DataStart(curve, |claims|), claims, InlineIx(curve, self), ixs, []);
  }

  /** A reference resolves exactly if it names its target in one way, a target object is a finished
      instruction of the transaction, and it comes with an offset or leads to a finished instruction
      that holds the value exactly once. */
  lemma RefResolvesIff(at: Placement, value: seq<Byte>, ixs: seq<Ix>)
    requires at.Ref?
    ensures ResolveRef(at, value, ixs).Some? <==>
            && (at.target.Some? <==> at.index.None?)
            && (at.target.Some? ==> exists i :: 0 <= i < |ixs| && ixs[i].Concrete? && ixs[i].id == at.target.value)
            && (at.offset.Some? || (NamedIndex(at, ixs).Some? && HoldsOnce(ixs, NamedIndex(at, ixs).value, value)))
    ensures at.target.Some? && at.index.None? && NamedIndex(at, ixs).Some? ==>
              forall j :: 0 <= j < NamedIndex(at, ixs).value && j < |ixs| ==> !(ixs[j].Concrete? && ixs[j].id == at.target.value)
  {
    hide Occurs;
    if at.target.Some? { IndexFirst(ixs, at.target.value); }
    var idx := NamedIndex(at, ixs);
    if idx.Some? && FinishedAt(ixs, idx.value) {
      var data := ixs[idx.value].data;
      var first := Find(data, value, 0);
      if first.Some? { OccursWithin(data, value, first.value); }
      forall k: nat | Occurs(data, value, k) ensures k <= |data| { OccursWithin(data, value, k); }
    }
  }

  /** The finished instruction at `idx` holds the value in exactly one place. */
  ghost predicate HoldsOnce(ixs: seq<Ix>, idx: int, value: seq<Byte>) {
    && FinishedAt(ixs, idx)
    && exists k :: Occurs(ixs[idx].data, value, k)
                   && forall m :: 0 <= m <= |ixs[idx].data| && Occurs(ixs[idx].data, value, m) ==> m == k
  }

  lemma OccursWithin(data: seq<Byte>, value: seq<Byte>, k: nat)
    requires Occurs(data, value, k)
    ensures k <= |data|
  {
  }

  lemma {:induction false} IndexFirst(ixs: seq<Ix>, id: nat)
    ensures IndexOf(ixs, id).Some? ==> forall j :: 0 <= j < IndexOf(ixs, id).value ==> !(ixs[j].Concrete? && ixs[j].id == id)
  {
    if ixs != [] { IndexFirst(ixs[..|ixs| - 1], id); }
  }
}
