/** Bytes and fixed-width little-endian integers, as `int.to_bytes` and `int.from_bytes`
    lay them out. */
module Bytes {
  import opened Wrappers

  type Byte = b: int | 0 <= b < 256

  function Pow256(n: nat): (r: nat)
    ensures r > 0
  {
    if n == 0 then 1 else 256 * Pow256(n - 1)
  }

  function FromLE(b: seq<Byte>): (r: nat)
    ensures r < Pow256(|b|)
  {
    if b == [] then 0 else b[0] + 256 * FromLE(b[1..])
  }

  function ToLE(v: nat, n: nat): (r: seq<Byte>)
    requires v < Pow256(n)
    ensures |r| == n
    decreases n
  {
    if n == 0 then [] else [v % 256] + ToLE(v / 256, n - 1)
  }

  /** The bytes of an integer in two's complement; only values of the width's range have any. */
  function IntToLE(v: int, n: nat, signed: bool): (r: Option<seq<Byte>>)
    ensures r.Some? <==> InRange(v, n, signed)
    ensures r.Some? ==> |r.value| == n
  {
    if !InRange(v, n, signed) then None
    else if v >= 0 then Some(ToLE(v, n))
    else Some(ToLE(v + Pow256(n), n))
  }

  function IntFromLE(b: seq<Byte>, signed: bool): (r: int)
    ensures InRange(r, |b|, signed)
  {
    var u := FromLE(b);
    if signed && 2 * u >= Pow256(|b|) && |b| > 0 then u - Pow256(|b|) else u
  }

  predicate InRange(v: int, n: nat, signed: bool) {
    if signed && n > 0 then 0 <= 2 * v + Pow256(n) < 2 * Pow256(n) else 0 <= v < Pow256(n)
  }

  lemma {:induction false} FromToLE(v: nat, n: nat)
    requires v < Pow256(n)
    ensures FromLE(ToLE(v, n)) == v
    decreases n
  {
    if n > 0 {
      FromToLE(v / 256, n - 1);
      assert ToLE(v, n)[1..] == ToLE(v / 256, n - 1);
    }
  }

  lemma {:induction false} ToFromLE(b: seq<Byte>)
    ensures ToLE(FromLE(b), |b|) == b
  {
    if b != [] {
      ToFromLE(b[1..]);
      assert FromLE(b) / 256 == FromLE(b[1..]) && FromLE(b) % 256 == b[0];
    }
  }

  /** The two directions of the integer layout undo each other, signed or not. */
  lemma IntRoundTrip(v: int, n: nat, signed: bool)
    requires InRange(v, n, signed)
    ensures IntFromLE(IntToLE(v, n, signed).value, signed) == v
  {
    FromToLE(if v >= 0 then v else v + Pow256(n), n);
  }

  lemma IntCanonical(b: seq<Byte>, signed: bool)
    ensures IntToLE(IntFromLE(b, signed), |b|, signed) == Some(b)
  {
    ToFromLE(b);
  }
}
