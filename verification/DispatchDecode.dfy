/** Exactly what every instruction decodes to, whoever built it. */
module DispatchDecode {
  import opened Wrappers
  import opened Bytes
  import opened Codec
  import opened CodecTheorems
  import opened CodecCanonical
  import opened Dispatch

  /** The arguments behind a discriminator: nothing for a refusing instruction, what its own decoder
      answers, or for a layout the values whose encoding is all that is there. */
  ghost predicate Holding(g: Graph, decoder: Decoder, body: seq<Byte>, args: seq<Value>) {
    match decoder
    case Refusing => false
    case Custom(decode) => decode(body) == Some(args)
    case Layout(nodes) =>
      && |args| == |nodes| && AllTyped(g, nodes, args) && WriteAll(g, nodes, args) == Some(body)
      && AllDepth(g, nodes, args) <= MAX_DECODE_DEPTH && AllFit(g, nodes, args, 0)
  }

  lemma ArgsIff(g: Graph, decoder: Decoder, body: seq<Byte>, args: seq<Value>)
    requires Plain(g) && (decoder.Layout? ==> PlainNodes(decoder.nodes))
    ensures DecodeArgs(g, decoder, body) == Some(args) <==> Holding(g, decoder, body, args)
  {
    if decoder.Layout? {
      hide Plain, PlainNodes, ReadAll, WriteAll, AllTyped, AllDepth, AllFit;
      var nodes := decoder.nodes;
      var r := ReadAll(g, nodes, body, 0, 0);
      if r.Ok? && r.pos == |body| && r.value == args {
        ReadAllTyped(g, nodes, body, 0, 0);
        ReadAllCanonical(g, nodes, body, 0, 0);
        assert body[0..|body|] == body;
        LayoutBack(g, nodes, args, body);
      }
      if |args| == |nodes| && AllTyped(g, nodes, args) && WriteAll(g, nodes, args) == Some(body) {
        LayoutBack(g, nodes, args, body);
      }
    }
  }

  /** The encoding of some arguments is read back as these exactly if they meet the guards. */
  lemma LayoutBack(g: Graph, nodes: seq<Node>, args: seq<Value>, body: seq<Byte>)
    requires |args| == |nodes| && AllTyped(g, nodes, args) && WriteAll(g, nodes, args) == Some(body)
    ensures ReadAll(g, nodes, body, 0, 0) == Ok(args, |body|) <==>
            AllDepth(g, nodes, args) <= MAX_DECODE_DEPTH && AllFit(g, nodes, args, 0)
  {
    hide ReadAll, WriteAll, AllTyped, AllDepth, AllFit;
    assert body[0..|body|] == body;
    ReadAllBack(g, nodes, args, body, 0, 0);
  }

  /** For all data. It is answered as instruction `k` with some arguments if and only if `k` is the
      choice for it and the data behind the discriminator holds these arguments; as a refusal of `k` if
      and only if `k` is the choice and it holds none; and as unmatched if and only if no discriminator
      is a prefix. */
  lemma DecodeIff(g: Graph, defs: seq<IxDef>, data: seq<Byte>, nAccounts: nat, k: nat, args: seq<Value>)
    requires Plain(g) && forall j :: 0 <= j < |defs| && defs[j].decoder.Layout? ==> PlainNodes(defs[j].decoder.nodes)
    ensures var r := DecodeIx(g, defs, data, nAccounts);
            && ((r.Instruction? && r.def == k && r.args == args) <==>
                  Chosen(defs, data, k) && Holding(g, defs[k].decoder, data[|defs[k].disc|..], args))
            && (r == Refused(k) <==>
                  Chosen(defs, data, k) && forall vs :: !Holding(g, defs[k].decoder, data[|defs[k].disc|..], vs))
            && (r == Unmatched <==> forall j :: 0 <= j < |defs| ==> !(defs[j].disc <= data))
  {
    hide Plain, PlainNodes, DecodeArgs, Holding;
    var best := FirstChoice(defs, data);
    if best.Some? {
      var def := defs[best.value];
      var body := data[|def.disc|..];
      forall vs ensures DecodeArgs(g, def.decoder, body) == Some(vs) <==> Holding(g, def.decoder, body, vs) {
        ArgsIff(g, def.decoder, body, vs);
      }
      if Chosen(defs, data, k) { ChosenUnique(defs, data, k, best.value); }
    }
  }

  /** So data that decodes to an instruction with a layout is what the builder makes of these arguments:
      nothing behind them is passed over. The roles are the instruction's, cut or padded. */
  lemma DecodedIsEncoded(g: Graph, defs: seq<IxDef>, data: seq<Byte>, nAccounts: nat)
    requires Plain(g) && forall j :: 0 <= j < |defs| && defs[j].decoder.Layout? ==> PlainNodes(defs[j].decoder.nodes)
    ensures var r := DecodeIx(g, defs, data, nAccounts);
            r.Instruction? && defs[r.def].decoder.Layout? ==>
              EncodeIx(g, defs[r.def].disc, defs[r.def].decoder.nodes, r.args) == Some(data)
    ensures var r := DecodeIx(g, defs, data, nAccounts);
            r.Instruction? ==>
              && |r.accountNames| == nAccounts
              && forall i :: 0 <= i < nAccounts ==>
                   r.accountNames[i] == if i < |defs[r.def].accounts| then Some(defs[r.def].accounts[i]) else None
  {
    hide Plain, PlainNodes, DecodeArgs, WriteAll;
    var r := DecodeIx(g, defs, data, nAccounts);
    if r.Instruction? {
      DecodeIff(g, defs, data, nAccounts, r.def, r.args);
      var disc := defs[r.def].disc;
      assert disc + data[|disc|..] == data;
    }
  }
}
