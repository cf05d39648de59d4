/** UTF-8 as sections 3 and 4 of RFC 3629 define it: the strict decoder accepts exactly the
    shortest forms of scalar values. */
module Utf8 {
  import opened Wrappers
  import opened Bytes

  predicate IsScalar(c: int) {
    0 <= c < 0xD800 || 0xE000 <= c < 0x110000
  }

  function EncodeChar(c: int): (r: seq<Byte>)
    requires IsScalar(c)
    ensures 1 <= |r| <= 4
  {
    if c < 0x80 then [c]
    else if c < 0x800 then [0xC0 + c / 64, 0x80 + c % 64]
    else if c < 0x10000 then [0xE0 + c / 4096, 0x80 + c / 64 % 64, 0x80 + c % 64]
    else [0xF0 + c / 262144, 0x80 + c / 4096 % 64, 0x80 + c / 64 % 64, 0x80 + c % 64]
  }

  /** `str.encode("utf-8")`: a lone surrogate has no encoding. */
  function Encode(s: seq<int>): (r: Option<seq<Byte>>)
    ensures r.Some? <==> forall i :: 0 <= i < |s| ==> IsScalar(s[i])
    ensures r.Some? ==> |s| <= |r.value|
  {
    if s == [] then Some([])
    else
      var rest := Encode(s[1..]);
      if !IsScalar(s[0]) || rest.None? then
        assert rest.None? ==> exists i :: 0 <= i < |s[1..]| && !IsScalar(s[1..][i]);
        None
      else
        assert forall i :: 1 <= i < |s| ==> s[i] == s[1..][i - 1];
        Some(EncodeChar(s[0]) + rest.value)
  }

  predicate Tail(b: seq<Byte>, k: nat, lo: int, hi: int) {
    k < |b| && lo <= b[k] <= hi
  }

  function Bits(b: seq<Byte>, k: nat, marker: int): int
    requires k < |b|
  {
    (b[k] as int) - marker
  }

  /** One well-formed byte sequence at the front of `b`: its scalar value and length. */
  function DecodeChar(b: seq<Byte>): (r: Option<(int, nat)>)
    ensures r.Some? ==> IsScalar(r.value.0) && 1 <= r.value.1 <= |b|
  {
    if b == [] then None
    else if b[0] < 0x80 then Some((b[0], 1))
    else if 0xC2 <= b[0] <= 0xDF then
      if Tail(b, 1, 0x80, 0xBF) then Some((Bits(b, 0, 0xC0) * 64 + Bits(b, 1, 0x80), 2)) else None
    else if 0xE0 <= b[0] <= 0xEF then
      var lo := if b[0] == 0xE0 then 0xA0 else 0x80;
      var hi := if b[0] == 0xED then 0x9F else 0xBF;
      if Tail(b, 1, lo, hi) && Tail(b, 2, 0x80, 0xBF)
      then Some((Bits(b, 0, 0xE0) * 4096 + Bits(b, 1, 0x80) * 64 + Bits(b, 2, 0x80), 3))
      else None
    else if 0xF0 <= b[0] <= 0xF4 then
      var lo := if b[0] == 0xF0 then 0x90 else 0x80;
      var hi := if b[0] == 0xF4 then 0x8F else 0xBF;
      if Tail(b, 1, lo, hi) && Tail(b, 2, 0x80, 0xBF) && Tail(b, 3, 0x80, 0xBF)
      then Some((Bits(b, 0, 0xF0) * 262144 + Bits(b, 1, 0x80) * 4096 + Bits(b, 2, 0x80) * 64 + Bits(b, 3, 0x80), 4))
      else None
    else None
  }

  /** `bytes.decode("utf-8")` in strict mode. */
  function Decode(b: seq<Byte>): (r: Option<seq<int>>)
    ensures r.Some? ==> forall i :: 0 <= i < |r.value| ==> IsScalar(r.value[i])
  {
    if b == [] then Some([])
    else
      var c := DecodeChar(b);
      if c.None? then None
      else
        var rest := Decode(b[c.value.1..]);
        if rest.None? then None else Some([c.value.0] + rest.value)
  }

  lemma DecodeEncodeChar(c: int, suffix: seq<Byte>)
    requires IsScalar(c)
    ensures DecodeChar(EncodeChar(c) + suffix) == Some((c, |EncodeChar(c)|))
  {
    hide DecodeChar;
    var b := EncodeChar(c) + suffix;
    if c < 0x800 {
      ShortForms(c, b);
    } else if c < 0x10000 {
      ThreeBytes(c, b);
    } else {
      FourBytes(c, b);
    }
  }

  lemma ShortForms(c: int, b: seq<Byte>)
    requires 0 <= c < 0x800 && EncodeChar(c) <= b
    ensures DecodeChar(b) == Some((c, |EncodeChar(c)|))
  {
    assert b[0] == EncodeChar(c)[0];
    if c >= 0x80 { assert b[1] == EncodeChar(c)[1]; }
  }

  lemma ThreeBytes(c: int, b: seq<Byte>)
    requires 0x800 <= c < 0x10000 && IsScalar(c) && EncodeChar(c) <= b
    ensures DecodeChar(b) == Some((c, 3)) && |EncodeChar(c)| == 3
  {
    assert b[0] == 0xE0 + c / 4096 && b[1] == 0x80 + c / 64 % 64 && b[2] == 0x80 + c % 64 by {
      var e := EncodeChar(c);
      assert b[0] == e[0] && b[1] == e[1] && b[2] == e[2];
    }
    hide EncodeChar;
    Shift(c, 64);
  }

  lemma FourBytes(c: int, b: seq<Byte>)
    requires 0x10000 <= c && IsScalar(c) && EncodeChar(c) <= b
    ensures DecodeChar(b) == Some((c, 4)) && |EncodeChar(c)| == 4
  {
    assert b[0] == 0xF0 + c / 262144 && b[1] == 0x80 + c / 4096 % 64 && b[2] == 0x80 + c / 64 % 64 && b[3] == 0x80 + c % 64 by {
      var e := EncodeChar(c);
      assert b[0] == e[0] && b[1] == e[1] && b[2] == e[2] && b[3] == e[3];
    }
    hide EncodeChar;
    Shift(c, 64);
    Shift(c, 4096);
  }

  /** The next six bits. */
  lemma Shift(c: nat, k: nat)
    requires k == 64 || k == 4096
    ensures c / (k * 64) * 64 + c / k % 64 == c / k
  {
  }

  lemma EncodeDecodeChar(b: seq<Byte>)
    requires DecodeChar(b).Some?
    ensures EncodeChar(DecodeChar(b).value.0) == b[..DecodeChar(b).value.1]
  {
    if b[0] >= 0xF0 {
      FourBack(Bits(b, 0, 0xF0), Bits(b, 1, 0x80), Bits(b, 2, 0x80), Bits(b, 3, 0x80));
    } else if b[0] >= 0xE0 {
      ThreeBack(Bits(b, 0, 0xE0), Bits(b, 1, 0x80), Bits(b, 2, 0x80));
    } else if b[0] >= 0x80 {
      TwoBack(Bits(b, 0, 0xC0), Bits(b, 1, 0x80));
    }
  }

  lemma TwoBack(x: int, y: int)
    requires 2 <= x < 32 && 0 <= y < 64
    ensures var c := x * 64 + y; IsScalar(c) && EncodeChar(c) == [0xC0 + x, 0x80 + y]
  {
  }

  lemma ThreeBack(x: int, y: int, z: int)
    requires 0 <= x < 16 && 0 <= y < 64 && 0 <= z < 64 && (x == 0 ==> y >= 32) && (x == 13 ==> y < 32)
    ensures var c := x * 4096 + y * 64 + z; IsScalar(c) && EncodeChar(c) == [0xE0 + x, 0x80 + y, 0x80 + z]
  {
    var c := x * 4096 + y * 64 + z;
    assert c / 64 == x * 64 + y && c / 4096 == x;
  }

  lemma FourBack(w: int, x: int, y: int, z: int)
    requires 0 <= w <= 4 && 0 <= x < 64 && 0 <= y < 64 && 0 <= z < 64 && (w == 0 ==> x >= 16) && (w == 4 ==> x < 16)
    ensures var c := w * 262144 + x * 4096 + y * 64 + z;
            IsScalar(c) && EncodeChar(c) == [0xF0 + w, 0x80 + x, 0x80 + y, 0x80 + z]
  {
    FourParts(w, x, y, z);
    ModOf(w * 64 + x, y);
    ModOf(w, x);
    ModOf(w * 4096 + x * 64 + y, z);
  }

  lemma FourParts(w: int, x: int, y: int, z: int)
    requires 0 <= w && 0 <= x < 64 && 0 <= y < 64 && 0 <= z < 64
    ensures var c := w * 262144 + x * 4096 + y * 64 + z;
            c / 64 == (w * 64 + x) * 64 + y && c / 4096 == w * 64 + x && c / 262144 == w
  {
  }

  lemma ModOf(q: int, r: int)
    requires 0 <= q && 0 <= r < 64
    ensures (q * 64 + r) % 64 == r
  {
  }

  lemma {:induction false} RoundTrip(s: seq<int>)
    requires Encode(s).Some?
    ensures Decode(Encode(s).value) == Some(s)
  {
    hide DecodeChar, EncodeChar;
    if s != [] {
      var head, rest := EncodeChar(s[0]), Encode(s[1..]).value;
      RoundTrip(s[1..]);
      DecodeEncodeChar(s[0], rest);
      assert (head + rest)[|head|..] == rest;
      assert [s[0]] + s[1..] == s;
    }
  }

  /** The decoder accepts no other spelling of a string: re-encoding gives the bytes back. */
  lemma {:induction false} Canonical(b: seq<Byte>)
    requires Decode(b).Some?
    ensures Encode(Decode(b).value) == Some(b)
  {
    hide DecodeChar, EncodeChar;
    if b != [] {
      var (c, n) := DecodeChar(b).value;
      EncodeDecodeChar(b);
      Canonical(b[n..]);
      var rest := Decode(b[n..]).value;
      assert ([c] + rest)[1..] == rest;
      assert b[..n] + b[n..] == b;
    }
  }
}
