/** The assembler as it runs: a cursor, a growing body and growing offset structs. */
module PrecompileMachine {
  import opened Wrappers
  import opened Bytes
  import opened Precompile

  lemma {:induction false} Stuck(curve: Curve, start: nat, claims: seq<Claim>, inlineIx: nat, ixs: seq<Ix>, k: nat)
    requires k <= |claims| && AddClaims(curve, start, claims[..k], inlineIx, ixs).None?
    ensures AddClaims(curve, start, claims, inlineIx, ixs).None?
    decreases claims
  {
    hide AddClaim;
    if k == |claims| {
      assert claims[..k] == claims;
    } else {
      var n := |claims| - 1;
      assert claims[..n][..k] == claims[..k];
      Stuck(curve, start, claims[..n], inlineIx, ixs, k);
    }
  }

  /** `build_instruction_data`. */
  method BuildInstructionData(curve: Curve, claims: seq<Claim>, self: nat, ixs: seq<Ix>) returns (r: Option<seq<Byte>>)
    ensures r == BuildData(curve, claims, self, ixs)
  {
    hide PlaceOne, PackOffsets, SignatureBlob;
    var count := |claims|;
    var start := DataStart(curve, count);
    var inlineIx := InlineIx(curve, self);
    var body: seq<Byte>, structs: seq<Byte>, cursor := [], [], start;
    for k := 0 to count
      invariant cursor == start + |body|
      invariant var spec := AddClaims(curve, start, claims[..k], inlineIx, ixs);
                spec.Some? && spec.value.1 == Parts(structs, body)
    {
      assert claims[..k + 1][..k] == claims[..k];
      var c := claims[k];
      var added := PlaceClaim(curve, Parts(structs, body), start, cursor, c, inlineIx, ixs);
      if added.None? {
        Stuck(curve, start, claims, inlineIx, ixs, k + 1);
        return None;
      }
      structs, body := added.value.structs, added.value.body;
      cursor := start + |body|;
    }
    assert claims[..count] == claims;
    if count > 255 { return None; }
    r := Some(Header(curve, count) + structs + body);
  }

  /** One claim of the loop: three components, the cursor moving behind every inline one. */
  method PlaceClaim(curve: Curve, p: Parts, start: nat, cursor0: nat, c: Claim, inlineIx: nat, ixs: seq<Ix>) returns (r: Option<Parts>)
    requires cursor0 == start + |p.body|
    ensures var spec := AddClaim(curve, p, start, c, inlineIx, ixs);
            r == if spec.Some? then Some(spec.value.1) else None
  {
    hide PlaceOne, PackOffsets, SignatureBlob;
    var blob := SignatureBlob(curve, c);
    if !CheckClaim(curve, c) || blob.None? { return None; }
    var body, cursor := p.body, cursor0;
    var identity := PlaceOne(c.identityAt, c.identity, cursor, inlineIx, ixs);
    if identity.None? { return None; }
    body, cursor := body + identity.value.1, cursor + |identity.value.1|;
    var signature := PlaceOne(c.signatureAt, blob.value, cursor, inlineIx, ixs);
    if signature.None? { return None; }
    body, cursor := body + signature.value.1, cursor + |signature.value.1|;
    var message := PlaceOne(c.messageAt, c.message, cursor, inlineIx, ixs);
    if message.None? { return None; }
    body := body + message.value.1;
    var packed := PackOffsets(curve, Entry(identity.value.0, signature.value.0, message.value.0));
    if packed.None? { return None; }
    r := Some(Parts(p.structs + packed.value, body));
  }

  lemma {:induction false} Unfinished(ixs: seq<Ix>, n: nat, k: nat)
    requires k <= n <= |ixs| && Materialize(ixs, k).None?
    ensures Materialize(ixs, n).None?
  {
    hide BuildData;
    if k < n { Unfinished(ixs, n - 1, k); }
  }

  /** `materialize`: every deferred precompile is bound to its final position. */
  method MaterializeAll(ixs: seq<Ix>) returns (r: Option<seq<seq<Byte>>>)
    ensures r == Materialize(ixs, |ixs|)
  {
    hide BuildData;
    var out: seq<seq<Byte>> := [];
    for i := 0 to |ixs|
      invariant Materialize(ixs, i) == Some(out)
    {
      match ixs[i] {
        case Concrete(_, data) => out := out + [data];
        case Deferred(curve, claims) =>
          var data := BuildInstructionData(curve, claims, i, ixs);
          if data.None? {
            Unfinished(ixs, |ixs|, i + 1);
            return None;
          }
          out := out + [data.value];
      }
    }
    r := Some(out);
  }
}
