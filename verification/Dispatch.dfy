/** Instruction dispatch: the registered instruction whose discriminator is the longest prefix of
    the data decodes the rest. */
module Dispatch {
  import opened Wrappers
  import opened Bytes
  import opened Codec
  import opened CodecTheorems

  /** How an instruction's arguments are decoded: not at all (`add_refusing`), by a Borsh layout, or by
      a decoder of its own. Without any given, the decoder answers no arguments. */
  datatype Decoder =
    | Refusing
    | Layout(nodes: seq<Node>)
    | Custom(decode: seq<Byte> -> Option<seq<Value>>)

  datatype IxDef = IxDef(name: string, disc: seq<Byte>, accounts: seq<string>, decoder: Decoder)

  const DEFAULT_DECODER: Decoder := Custom((data: seq<Byte>) => Some([]))

  datatype Decoded =
    | Unmatched
    | Refused(def: nat)
    | Instruction(def: nat, args: seq<Value>, accountNames: seq<Option<string>>)

  /** `i` is the choice for `data`: its discriminator is a prefix, no longer one is, and no equally
      long one was registered before it. */
  predicate Chosen(defs: seq<IxDef>, data: seq<Byte>, i: nat) {
    && i < |defs| && defs[i].disc <= data
    && forall j :: 0 <= j < |defs| && defs[j].disc <= data ==>
         |defs[j].disc| < |defs[i].disc| || (|defs[j].disc| == |defs[i].disc| && i <= j)
  }

  class ProgramInterface {
    var defs: seq<IxDef>

    constructor ()
      ensures defs == []
    {
      defs := [];
    }

    method Add(def: IxDef)
      modifies this
      ensures defs == old(defs) + [def]
    {
      defs := defs + [def];
    }

    /** `_match`. */
    method Match(data: seq<Byte>) returns (best: Option<nat>)
      ensures best.Some? ==> Chosen(defs, data, best.value)
      ensures best.None? ==> forall j :: 0 <= j < |defs| ==> !(defs[j].disc <= data)
    {
      best := None;
      for k := 0 to |defs|
        invariant best.Some? ==> best.value < k && Chosen(defs[..k], data, best.value)
        invariant best.None? ==> forall j :: 0 <= j < k ==> !(defs[j].disc <= data)
      {
        var disc := defs[k].disc;
        if disc <= data {
          if best.None? || |disc| > |defs[best.value].disc| { best := Some(k); }
        }
      }
      assert defs[..|defs|] == defs;
    }

    /** `decode`: what the matched instruction makes of the bytes behind its discriminator. */
    method DecodeData(g: Graph, data: seq<Byte>, nAccounts: nat) returns (r: Decoded)
      ensures r == DecodeIx(g, defs, data, nAccounts)
    {
      var best := Match(data);
      if best.None? { return Unmatched; }
      ChosenUnique(defs, data, best.value, FirstChoice(defs, data).value);
      var def := defs[best.value];
      var args := DecodeArgs(g, def.decoder, data[|def.disc|..]);
      if args.None? { return Refused(best.value); }
      r := Instruction(best.value, args.value, AccountNames(def.accounts, nAccounts));
    }
  }

  lemma ChosenUnique(defs: seq<IxDef>, data: seq<Byte>, i: nat, j: nat)
    requires Chosen(defs, data, i) && Chosen(defs, data, j)
    ensures i == j
  {
  }

  /** The choice, if there is one. */
  ghost function FirstChoice(defs: seq<IxDef>, data: seq<Byte>): (r: Option<nat>)
    ensures r.Some? ==> Chosen(defs, data, r.value)
    ensures r.None? ==> forall j :: 0 <= j < |defs| ==> !(defs[j].disc <= data)
  {
    if defs == [] then None
    else
      var n := |defs| - 1;
      var r := FirstChoice(defs[..n], data);
      if defs[n].disc <= data && (r.None? || |defs[n].disc| > |defs[r.value].disc|) then Some(n) else r
  }

  function DecodeArgs(g: Graph, decoder: Decoder, body: seq<Byte>): Option<seq<Value>> {
    match decoder
    case Refusing => None
    case Layout(nodes) =>
      var r := ReadAll(g, nodes, body, 0, 0);
      if r.Err? || r.pos != |body| then None else Some(r.value)
    case Custom(decode) => decode(body)
  }

  /** Role names cut or padded to the accounts passed. */
  function AccountNames(names: seq<string>, n: nat): (r: seq<Option<string>>)
    ensures |r| == n
    ensures forall i :: 0 <= i < n ==> r[i] == if i < |names| then Some(names[i]) else None
  {
    seq(n, (i: nat) => if i < |names| then Some(names[i]) else None)
  }

  ghost function DecodeIx(g: Graph, defs: seq<IxDef>, data: seq<Byte>, nAccounts: nat): Decoded {
    var best := FirstChoice(defs, data);
    if best.None? then Unmatched
    else
      var def := defs[best.value];
      var args := DecodeArgs(g, def.decoder, data[|def.disc|..]);
      if args.None? then Refused(best.value)
      else Instruction(best.value, args.value, AccountNames(def.accounts, nAccounts))
  }

  /** `encode_ix_layout`. */
  function EncodeIx(g: Graph, disc: seq<Byte>, layout: seq<Node>, values: seq<Value>): Option<seq<Byte>> {
    if |values| != |layout| then None else Join(disc, WriteAll(g, layout, values))
  }

  /** No other discriminator extends that of `k`, and none registered earlier equals it. */
  predicate Unshadowed(defs: seq<IxDef>, k: nat)
    requires k < |defs|
  {
    forall j :: 0 <= j < |defs| && j != k ==>
      !(defs[k].disc < defs[j].disc) && (defs[j].disc == defs[k].disc ==> k < j)
  }

  /** An instruction is dispatched to itself whatever its arguments exactly when it is unshadowed. */
  lemma DispatchIff(defs: seq<IxDef>, k: nat)
    requires k < |defs|
    ensures (forall body :: Chosen(defs, defs[k].disc + body, k)) <==> Unshadowed(defs, k)
  {
    if Unshadowed(defs, k) {
      forall body ensures Chosen(defs, defs[k].disc + body, k) {
        var data := defs[k].disc + body;
        forall j | 0 <= j < |defs| && defs[j].disc <= data
          ensures |defs[j].disc| < |defs[k].disc| || (|defs[j].disc| == |defs[k].disc| && k <= j)
        {
          PrefixesNest(defs[k].disc, defs[j].disc, data);
        }
      }
    }
    forall j | 0 <= j < |defs| && j != k && (defs[k].disc < defs[j].disc || (defs[j].disc == defs[k].disc && j < k))
      ensures !Chosen(defs, defs[k].disc + defs[j].disc[|defs[k].disc|..], k)
    {
      assert defs[k].disc + defs[j].disc[|defs[k].disc|..] == defs[j].disc;
    }
  }

  lemma PrefixesNest(a: seq<Byte>, b: seq<Byte>, data: seq<Byte>)
    requires a <= data && b <= data
    ensures |a| < |b| ==> a < b
    ensures |a| == |b| ==> a == b
  {
  }

  /** What `encode_ix_layout` built for an unshadowed instruction decodes to that instruction and
      those arguments, exactly if they meet the depth and length guards. */
  lemma IxRoundTrip(g: Graph, defs: seq<IxDef>, k: nat, values: seq<Value>, nAccounts: nat)
    requires k < |defs| && defs[k].decoder.Layout? && Unshadowed(defs, k)
    requires |values| == |defs[k].decoder.nodes| && AllTyped(g, defs[k].decoder.nodes, values)
    ensures var layout := defs[k].decoder.nodes;
            var data := EncodeIx(g, defs[k].disc, layout, values);
            && data.Some?
            && (DecodeIx(g, defs, data.value, nAccounts) == Instruction(k, values, AccountNames(defs[k].accounts, nAccounts)) <==>
                  AllDepth(g, layout, values) <= MAX_DECODE_DEPTH && AllFit(g, layout, values, 0))
  {
    var disc, layout := defs[k].disc, defs[k].decoder.nodes;
    WriteAllTyped(g, layout, values);
    var body := WriteAll(g, layout, values).value;
    var data := disc + body;
    DispatchIff(defs, k);
    assert Chosen(defs, data, k);
    assert FirstChoice(defs, data).Some?;
    ChosenUnique(defs, data, k, FirstChoice(defs, data).value);
    assert data[|disc|..] == body;
    ReadAllBack(g, layout, values, body, 0, 0);
  }
}
