/** Exactly which precompile instructions can be assembled. */
module PrecompileAccepts {
  import opened Wrappers
  import opened Bytes
  import opened Precompile
  import opened PrecompileTheorems

  // ----- the curves, from the runtime's own layout --------------------------------------------

  function KeySize(curve: Curve): nat {
    match curve
    case Ed25519 => 32
    case Secp256k1 => 20
    case Secp256r1 => 33
  }

  function StoredSize(curve: Curve): nat {
    if curve == Secp256k1 then 65 else 64
  }

  /** The claim is of this curve and its parts have the curve's sizes. */
  predicate Shaped(curve: Curve, c: Claim) {
    c.curve == curve && |c.identity| == KeySize(curve) && |c.signature| == 64 && (curve == Secp256k1 ==> c.recovery.Some?)
  }

  lemma ShapedIff(curve: Curve, c: Claim)
    ensures Shaped(curve, c) <==> CheckClaim(curve, c) && SignatureBlob(curve, c).Some?
    ensures SignatureBlob(curve, c).Some? ==> |SignatureBlob(curve, c).value| == StoredSize(curve)
  {
  }

  // ----- where components go ------------------------------------------------------------------

  function InlineSize(at: Placement, size: nat): nat {
    if at.Inline? then size else 0
  }

  /** Inline bytes of one claim, and of the first `n`. */
  function ClaimSize(curve: Curve, c: Claim): nat {
    InlineSize(c.identityAt, KeySize(curve)) + InlineSize(c.signatureAt, StoredSize(curve)) + InlineSize(c.messageAt, |c.message|)
  }

  function BodySize(curve: Curve, claims: seq<Claim>, n: nat): nat
    requires n <= |claims|
  {
    if n == 0 then 0 else BodySize(curve, claims, n - 1) + ClaimSize(curve, claims[n - 1])
  }

  /** Two bytes for an offset or a size; one or two for an index. */
  predicate InTwo(v: int) {
    0 <= v < 0x1_0000
  }

  predicate IndexFits(curve: Curve, v: int) {
    0 <= v < if curve == Secp256k1 then 0x100 else 0x1_0000
  }

  /** A component fits its struct: inline at `offset`, of this very instruction; or where its reference
      resolves. */
  predicate PlaceFits(curve: Curve, at: Placement, value: seq<Byte>, offset: nat, self: nat, ixs: seq<Ix>) {
    match at
    case Inline => InTwo(offset) && (curve == Secp256k1 ==> IndexFits(curve, self))
    case Ref(_, _, _, _) =>
      var found := ResolveRef(at, value, ixs);
      found.Some? && InTwo(found.value.1) && IndexFits(curve, found.value.0)
  }

  predicate SizeFits(at: Placement, value: seq<Byte>) {
    InTwo(if at.Ref? && at.size.Some? then at.size.value else |value|)
  }

  /** The `k`-th claim can be assembled, its inline parts standing behind those of the claims before. */
  ghost predicate ClaimFits(curve: Curve, claims: seq<Claim>, k: nat, self: nat, ixs: seq<Ix>)
    requires k < |claims|
  {
    var c := claims[k];
    var first := StructAt(curve, |claims|) + BodySize(curve, claims, k);
    var second := first + InlineSize(c.identityAt, KeySize(curve));
    var third := second + InlineSize(c.signatureAt, StoredSize(curve));
    && Shaped(curve, c)
    && PlaceFits(curve, c.identityAt, c.identity, first, self, ixs)
    && (forall blob :: Stored(curve, c, blob) ==> PlaceFits(curve, c.signatureAt, blob, second, self, ixs))
    && PlaceFits(curve, c.messageAt, c.message, third, self, ixs) && SizeFits(c.messageAt, c.message)
  }

  // ----- one claim ----------------------------------------------------------------------------

  lemma PowIs()
    ensures Pow256(1) == 0x100 && Pow256(2) == 0x1_0000
  {
    assert Pow256(1) == 256 * Pow256(0);
  }

  lemma PlaceIff(curve: Curve, at: Placement, value: seq<Byte>, cursor: nat, self: nat, ixs: seq<Ix>)
    ensures var r := PlaceOne(at, value, cursor, InlineIx(curve, self), ixs);
            && (PlaceFits(curve, at, value, cursor, self, ixs) <==>
                  r.Some? && Fits(r.value.0.offset, 2) && Fits(r.value.0.index, curve.IndexWidth()))
            && (r.Some? ==> |r.value.1| == InlineSize(at, |value|))
            && (r.Some? ==> (SizeFits(at, value) <==> Fits(r.value.0.size, 2)))
  {
    hide ResolveRef;
    PowIs();
  }

  lemma PackIff(curve: Curve, e: Entry)
    ensures PackOffsets(curve, e).Some? <==>
            var w := curve.IndexWidth();
            && Fits(e.identity.offset, 2) && Fits(e.identity.index, w) && Fits(e.signature.offset, 2) && Fits(e.signature.index, w)
            && Fits(e.message.offset, 2) && Fits(e.message.index, w) && Fits(e.message.size, 2)
  {
    hide Fits, ToLE, Pow256;
  }

  /** With a signature to store, a claim is added exactly if its three parts are placed and packed. */
  lemma AddedIff(curve: Curve, p: Parts, start: nat, c: Claim, blob: seq<Byte>, self: nat, ixs: seq<Ix>)
    requires CheckClaim(curve, c) && SignatureBlob(curve, c) == Some(blob)
    ensures var first := start + |p.body|;
            var second := first + InlineSize(c.identityAt, |c.identity|);
            var third := second + InlineSize(c.signatureAt, |blob|);
            var r := AddClaim(curve, p, start, c, InlineIx(curve, self), ixs);
            && (r.Some? <==>
                  && PlaceFits(curve, c.identityAt, c.identity, first, self, ixs)
                  && PlaceFits(curve, c.signatureAt, blob, second, self, ixs)
                  && PlaceFits(curve, c.messageAt, c.message, third, self, ixs) && SizeFits(c.messageAt, c.message))
            && (r.Some? ==> start + |r.value.1.body| == third + InlineSize(c.messageAt, |c.message|))
  {
    hide PlaceFits, PlaceOne, SignatureBlob, CheckClaim, Fits, SizeFits, InlineSize, PackOffsets;
    var first := start + |p.body|;
    var second := first + InlineSize(c.identityAt, |c.identity|);
    var third := second + InlineSize(c.signatureAt, |blob|);
    var inlineIx := InlineIx(curve, self);
    PlaceIff(curve, c.identityAt, c.identity, first, self, ixs);
    PlaceIff(curve, c.signatureAt, blob, second, self, ixs);
    PlaceIff(curve, c.messageAt, c.message, third, self, ixs);
    var x, y, z := PlaceOne(c.identityAt, c.identity, first, inlineIx, ixs), PlaceOne(c.signatureAt, blob, second, inlineIx, ixs),
                   PlaceOne(c.messageAt, c.message, third, inlineIx, ixs);
    if x.Some? && y.Some? && z.Some? { PackIff(curve, Entry(x.value.0, y.value.0, z.value.0)); }
  }

  lemma AddClaimIff(curve: Curve, p: Parts, claims: seq<Claim>, k: nat, self: nat, ixs: seq<Ix>)
    requires k < |claims| && |p.body| == BodySize(curve, claims, k)
    ensures var r := AddClaim(curve, p, StructAt(curve, |claims|), claims[k], InlineIx(curve, self), ixs);
            && (r.Some? <==> ClaimFits(curve, claims, k, self, ixs))
            && (r.Some? ==> |r.value.1.body| == BodySize(curve, claims, k + 1))
  {
    hide PlaceFits, Stored, SignatureBlob, CheckClaim, Shaped, BodySize, SizeFits, StructAt, InlineSize;
    var c, start := claims[k], StructAt(curve, |claims|);
    ShapedIff(curve, c);
    if Shaped(curve, c) {
      hide AddClaim;
      var blob := SignatureBlob(curve, c).value;
      StoredIs(curve, c);
      assert Stored(curve, c, blob);
      IdentitySized(curve, c);
      AddedIff(curve, p, start, c, blob, self, ixs);
      BodyMore(curve, claims, k);
    }
  }

  lemma BodyMore(curve: Curve, claims: seq<Claim>, k: nat)
    requires k < |claims|
    ensures BodySize(curve, claims, k + 1) == BodySize(curve, claims, k) + ClaimSize(curve, claims[k])
  {
  }

  lemma IdentitySized(curve: Curve, c: Claim)
    requires Shaped(curve, c)
    ensures |c.identity| == KeySize(curve)
  {
  }

  lemma {:induction false} BodyPrefix(curve: Curve, claims: seq<Claim>, m: nat, n: nat)
    requires n <= m <= |claims|
    ensures BodySize(curve, claims[..m], n) == BodySize(curve, claims, n)
    decreases n
  {
    if n > 0 { BodyPrefix(curve, claims, m, n - 1); }
  }

  // ----- all of them --------------------------------------------------------------------------

  lemma {:induction false} AddClaimsIff(curve: Curve, claims: seq<Claim>, n: nat, self: nat, ixs: seq<Ix>)
    requires n <= |claims|
    ensures var r := AddClaims(curve, StructAt(curve, |claims|), claims[..n], InlineIx(curve, self), ixs);
            && (r.Some? <==> forall k :: 0 <= k < n ==> ClaimFits(curve, claims, k, self, ixs))
            && (r.Some? ==> |r.value.1.body| == BodySize(curve, claims, n))
    decreases n
  {
    hide ClaimFits, AddClaim, BodySize, StructAt;
    if n == 0 {
      assert BodySize(curve, claims, 0) == 0 by { NoBody(curve, claims); }
    } else {
      AddClaimsIff(curve, claims, n - 1, self, ixs);
      assert claims[..n][..n - 1] == claims[..n - 1];
      var before := AddClaims(curve, StructAt(curve, |claims|), claims[..n - 1], InlineIx(curve, self), ixs);
      if before.Some? { AddClaimIff(curve, before.value.1, claims, n - 1, self, ixs); }
    }
  }

  lemma NoBody(curve: Curve, claims: seq<Claim>)
    ensures BodySize(curve, claims, 0) == 0
  {
  }

  /** A deferred instruction can be built exactly if it has at most 255 claims and each of them fits. */
  ghost predicate Buildable(curve: Curve, claims: seq<Claim>, self: nat, ixs: seq<Ix>) {
    |claims| <= 255 && forall k :: 0 <= k < |claims| ==> ClaimFits(curve, claims, k, self, ixs)
  }

  lemma BuildIff(curve: Curve, claims: seq<Claim>, self: nat, ixs: seq<Ix>)
    ensures BuildData(curve, claims, self, ixs).Some? <==> Buildable(curve, claims, self, ixs)
  {
    hide ClaimFits, AddClaims;
    AddClaimsIff(curve, claims, |claims|, self, ixs);
    assert claims[..|claims|] == claims && DataStart(curve, |claims|) == StructAt(curve, |claims|);
  }

  /** A transaction can be assembled exactly if every deferred instruction of it can be built. */
  lemma {:induction false} AssembledIff(ixs: seq<Ix>, n: nat)
    requires n <= |ixs|
    ensures Materialize(ixs, n).Some? <==>
            forall i :: 0 <= i < n && ixs[i].Deferred? ==> Buildable(ixs[i].curve, ixs[i].claims, i, ixs)
  {
    hide Buildable, BuildData;
    if n > 0 {
      AssembledIff(ixs, n - 1);
      if ixs[n - 1].Deferred? { BuildIff(ixs[n - 1].curve, ixs[n - 1].claims, n - 1, ixs); }
    }
  }
}
