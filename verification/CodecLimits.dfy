/** The depth guard in numbers. */
module CodecLimits {
  import opened Wrappers
  import opened Bytes
  import opened Codec
  import opened CodecTheorems
  import opened CodecCanonical

  function Levels(n: nat): Node {
    if n == 0 then BoolNode else OptNode(Levels(n - 1))
  }

  function Wrapped(n: nat): Value {
    if n == 0 then VBool(true) else VOpt(Wrapped(n - 1))
  }

  function Ones(n: nat): (r: seq<Byte>)
    ensures |r| == n
  {
    if n == 0 then [] else [1] + Ones(n - 1)
  }

  lemma {:induction false} LevelsAre(g: Graph, n: nat)
    ensures WellTyped(g, Levels(n), Wrapped(n)) && Write(g, Levels(n), Wrapped(n)) == Some(Ones(n + 1))
    ensures Depth(g, Levels(n), Wrapped(n)) == n && VecsFit(g, Levels(n), Wrapped(n), 0)
  {
    if n == 0 {
      assert Ones(1) == [1] + Ones(0) == [1];
    } else {
      LevelsAre(g, n - 1);
    }
  }

  /** A value nested in `n` levels is written at any depth, and read back exactly up to 64 levels. */
  lemma DepthLimit(g: Graph, n: nat)
    ensures Encode(g, Levels(n), Wrapped(n)) == Some(Ones(n + 1))
    ensures Decode(g, Levels(n), Ones(n + 1), IxData) == Some(Wrapped(n)) <==> n <= 64
  {
    hide Write, WellTyped, Depth, VecsFit, Read, Ones;
    LevelsAre(g, n);
    DecodeEncode(g, Levels(n), Wrapped(n), []);
  }
}
