/** The wire format of scalars as the Borsh specification has it, said without the tables of the code:
    an integer type's width is the number of bits in its name. */
module BorshScalars {
  import opened Wrappers
  import opened Bytes
  import Utf8
  import Text
  import opened Codec
  import opened Lowering
  import opened LoweringTheorems

  // ----- digits -------------------------------------------------------------------------------

  function Pow2(n: nat): (r: nat)
    ensures r > 0
  {
    if n == 0 then 1 else 2 * Pow2(n - 1)
  }

  /** `b` are the lowest digits of `i` to base 256, lowest first; a negative number's are those of its
      two's complement, since division here rounds down. */
  predicate Digits(i: int, b: seq<Byte>) {
    forall j :: 0 <= j < |b| ==> b[j] == i / Pow2(8 * j) % 256
  }

  lemma {:induction false} Pow256Is(n: nat)
    ensures Pow256(n) == Pow2(8 * n)
  {
    if n > 0 {
      Pow256Is(n - 1);
      EightBits(8 * (n - 1));
    }
  }

  lemma EightBits(k: nat)
    ensures Pow2(k + 8) == 256 * Pow2(k)
  {
    assert Pow2(k + 2) == 2 * Pow2(k + 1) && Pow2(k + 4) == 2 * Pow2(k + 3) && Pow2(k + 6) == 2 * Pow2(k + 5);
    assert Pow2(k + 3) == 2 * Pow2(k + 2) && Pow2(k + 5) == 2 * Pow2(k + 4) && Pow2(k + 7) == 2 * Pow2(k + 6);
  }

  lemma DivDiv(i: int, d: nat)
    requires d > 0
    ensures i / (256 * d) == i / 256 / d
  {
    var q, r := i / 256 / d, i / 256 % d;
    assert i == 256 * (i / 256) + i % 256 && i / 256 == d * q + r;
    var low := 256 * r + i % 256;
    assert i == 256 * d * q + low && 0 <= low < 256 * d by {
      assert 256 * (d * q + r) == 256 * d * q + 256 * r;
    }
    Quotient(i, 256 * d, q, low);
  }

  lemma Quotient(i: int, d: nat, q: int, r: nat)
    requires i == d * q + r && r < d
    ensures i / d == q
  {
    var e := q - i / d;
    assert d * e == d * q - d * (i / d) == i % d - r;
    Multiple(d, e);
  }

  lemma Multiple(d: nat, e: int)
    requires d > 0 && 0 < d * e + d < 2 * d
    ensures e == 0
  {
    assert e >= 1 ==> d * e >= d;
    assert e <= -1 ==> d * e + d <= 0;
  }

  lemma {:induction false} ToLEDigits(v: nat, n: nat)
    requires v < Pow256(n)
    ensures Digits(v, ToLE(v, n))
    decreases n
  {
    if n > 0 {
      var b := ToLE(v, n);
      ToLEDigits(v / 256, n - 1);
      forall j | 0 <= j < n ensures b[j] == v / Pow2(8 * j) % 256 {
        if j > 0 {
          assert b[j] == ToLE(v / 256, n - 1)[j - 1];
          EightBits(8 * (j - 1));
          DivDiv(v, Pow2(8 * (j - 1)));
        }
      }
    }
  }

  lemma IntDigits(i: int, n: nat, signed: bool)
    requires InRange(i, n, signed)
    ensures Digits(i, IntToLE(i, n, signed).value)
  {
    if i >= 0 {
      ToLEDigits(i, n);
    } else {
      var u := i + Pow256(n);
      ToLEDigits(u, n);
      forall j | 0 <= j < n ensures u / Pow2(8 * j) % 256 == i / Pow2(8 * j) % 256 { Complement(i, n, j); }
    }
  }

  /** Adding a whole range changes no digit below it. */
  lemma Complement(i: int, n: nat, j: nat)
    requires j < n
    ensures (i + Pow256(n)) / Pow2(8 * j) % 256 == i / Pow2(8 * j) % 256
  {
    RangeSplits(n, j);
    WholeRange(i, Pow256(n), Pow2(8 * j), Pow2(8 * (n - 1 - j)));
  }

  lemma WholeRange(i: int, range: nat, d: nat, m: nat)
    requires d > 0 && range == d * (256 * m)
    ensures (i + range) / d % 256 == i / d % 256
  {
    Shifted(i, d, 256 * m);
    SameDigit(i / d, m);
  }

  lemma SameDigit(q: int, m: nat)
    ensures (q + 256 * m) % 256 == q % 256
  {
  }

  lemma RangeSplits(n: nat, j: nat)
    requires j < n
    ensures Pow256(n) == Pow2(8 * j) * (256 * Pow2(8 * (n - 1 - j)))
  {
    Pow256Is(n);
    EightBits(8 * (n - 1 - j));
    PowSum(8 * j, 8 * (n - j));
  }

  lemma Shifted(i: int, d: nat, k: nat)
    requires d > 0
    ensures (i + d * k) / d == i / d + k
  {
    assert d * (i / d + k) == d * (i / d) + d * k;
    Quotient(i + d * k, d, i / d + k, i % d);
  }

  lemma {:induction false} PowSum(a: nat, b: nat)
    ensures Pow2(a + b) == Pow2(a) * Pow2(b)
  {
    if b > 0 {
      PowSum(a, b - 1);
      assert Pow2(a + b) == 2 * Pow2(a + (b - 1)) && Pow2(b) == 2 * Pow2(b - 1);
      hide Pow2;
      Doubled(Pow2(a), Pow2(b - 1));
    }
  }

  lemma Doubled(x: nat, y: nat)
    ensures 2 * (x * y) == x * (2 * y)
  {
  }

  /** The digits of a width determine a number up to that width. */
  lemma {:induction false} DigitsUnique(i: int, a: seq<Byte>, b: seq<Byte>)
    requires |a| == |b| && Digits(i, a) && Digits(i, b)
    ensures a == b
  {
    forall j | 0 <= j < |a| ensures a[j] == b[j] { assert a[j] == i / Pow2(8 * j) % 256; }
  }

  // ----- the format ---------------------------------------------------------------------------

  const WIDTHS: set<nat> := {8, 16, 32, 64, 128}

  function IntName(bits: nat, signed: bool): string {
    (if signed then "i" else "u") + Text.Decimal(bits)
  }

  predicate Representable(i: int, bits: nat, signed: bool)
    requires bits > 0
  {
    var half: int := Pow2(bits - 1);
    if signed then -half <= i < half else 0 <= i < 2 * half
  }

  /** A count of 32 bits, then the bytes. */
  predicate Counted(raw: seq<Byte>, b: seq<Byte>) {
    |raw| < Pow2(32) && |b| == 4 + |raw| && Digits(|raw|, b[..4]) && b[4..] == raw
  }

  /** Beyond the infinities of IEEE 754: without its sign bit the pattern is larger than an exponent
      of all ones with an empty fraction. */
  predicate NotANumber(bits: seq<Byte>) {
    if |bits| == 4 then FromLE(bits) % 0x8000_0000 > 0x7F80_0000
    else FromLE(bits) % 0x8000_0000_0000_0000 > 0x7FF0_0000_0000_0000
  }

  /** `b` is how a value of the scalar type `name` is written. */
  ghost predicate Spelled(name: string, v: IdlValue, b: seq<Byte>) {
    match v
    case IInt(i) =>
      exists bits, signed :: bits in WIDTHS + {256} && name == IntName(bits, signed)
                             && Representable(i, bits, signed) && |b| == bits / 8 && Digits(i, b)
    case IFloat(bits) => ((name == "f32" && |bits| == 4) || (name == "f64" && |bits| == 8)) && !NotANumber(bits) && b == bits
    case IBool(x) => name == "bool" && b == [if x then 1 else 0]
    case IStr(chars) => name == "string" && Utf8.Encode(chars).Some? && Counted(Utf8.Encode(chars).value, b)
    case IBytes(raw) => name == "bytes" && Counted(raw, b)
    case IKey(raw) => name == "pubkey" && |raw| == 32 && b == raw
    case _ => false
  }

  lemma Decimals()
    ensures Text.Decimal(8) == "8" && Text.Decimal(16) == "16" && Text.Decimal(32) == "32"
    ensures Text.Decimal(64) == "64" && Text.Decimal(128) == "128" && Text.Decimal(256) == "256"
  {
    assert Text.Decimal(1) == "1" && Text.Decimal(12) == "12";
    assert Text.Decimal(2) == "2" && Text.Decimal(25) == "25";
  }

  lemma Names()
    ensures IntName(8, false) == "u8" && IntName(8, true) == "i8" && IntName(16, false) == "u16" && IntName(16, true) == "i16"
    ensures IntName(32, false) == "u32" && IntName(32, true) == "i32" && IntName(64, false) == "u64" && IntName(64, true) == "i64"
    ensures IntName(128, false) == "u128" && IntName(128, true) == "i128"
    ensures IntName(256, false) == "u256" && IntName(256, true) == "i256"
  {
    hide Text.Decimal;
    Decimals();
  }

  /** The table of the code has every width right. */
  lemma SpecIs(bits: nat, signed: bool)
    requires bits in WIDTHS + {256}
    ensures IntSpec(IntName(bits, signed)) == Some((bits / 8, signed))
  {
    Names();
    hide IntName;
    Letters();
  }

  /** Names of different lengths or letters. */
  lemma Letters()
    ensures "u8"[0] != "i8"[0] && "u16"[0] != "i16"[0] && "u8"[1] == '8' && "u16"[1] == '1' && "u32"[1] == '3' && "u64"[1] == '6'
    ensures "u128"[2] == '2' && "u256"[1] == '2' && "i8"[1] == '8' && "i16"[1] == '1' && "i32"[1] == '3' && "i64"[1] == '6'
    ensures "i128"[2] == '2' && "i256"[1] == '2' && "u16"[2] == '6' && "i16"[2] == '6'
  {
  }

  lemma RangeIs(i: int, bits: nat, signed: bool)
    requires bits in WIDTHS + {256}
    ensures InRange(i, bits / 8, signed) <==> Representable(i, bits, signed)
  {
    Pow256Is(bits / 8);
    assert 8 * (bits / 8) == bits;
    assert Pow2(bits) == 2 * Pow2(bits - 1);
  }

  /** For every integer type and every integer: it has an encoding exactly if it is in range, which then
      has as many bytes as the name says and the number's digits in them; and the type is lowered,
      except for the two that the generator does not know. */
  lemma IntegerFormat(s: Schema, bits: nat, signed: bool, i: int, usable: string -> bool, ids: map<string, nat>)
    requires bits in WIDTHS + {256}
    ensures var t, v := Scalar(IntName(bits, signed)), IInt(i);
            && (Borsh(s, t, v).Some? <==> Representable(i, bits, signed))
            && (Borsh(s, t, v).Some? ==> |Borsh(s, t, v).value| == bits / 8 && Digits(i, Borsh(s, t, v).value))
            && (Lower(t, usable, ids).Some? <==> bits in WIDTHS)
  {
    hide IntSpec, IntName, InRange, Representable, Digits;
    var name := IntName(bits, signed);
    SpecIs(bits, signed);
    RangeIs(i, bits, signed);
    IntNameOnly(bits, signed);
    if InRange(i, bits / 8, signed) { IntDigits(i, bits / 8, signed); }
    IntLowered(bits, signed);
  }

  lemma IntLowered(bits: nat, signed: bool)
    requires bits in WIDTHS + {256}
    ensures IntName(bits, signed) in IDL_WIDTHS <==> bits in WIDTHS
  {
    Names();
    hide IntName;
    Letters();
  }

  /** Integer types are none of the others. */
  lemma IntNameOnly(bits: nat, signed: bool)
    ensures IntName(bits, signed) !in {"bool", "string", "bytes", "pubkey", "f32", "f64"}
  {
    assert IntName(bits, signed)[0] in {'i', 'u'};
    assert "bool"[0] == 'b' && "string"[0] == 's' && "bytes"[0] == 'b' && "pubkey"[0] == 'p' && "f32"[0] == 'f' && "f64"[0] == 'f';
  }

  // ----- every scalar -------------------------------------------------------------------------

  lemma CountedIs(raw: seq<Byte>, b: seq<Byte>)
    ensures Prefixed(raw) == Some(b) <==> Counted(raw, b)
  {
    Pow256Is(4);
    if |raw| < Pow256(4) {
      var count := ToLE(|raw|, 4);
      ToLEDigits(|raw|, 4);
      hide Digits, ToLE, Pow256, Pow2;
      assert (count + raw)[..4] == count && (count + raw)[4..] == raw;
      if Counted(raw, b) {
        DigitsUnique(|raw|, count, b[..4]);
        assert b == b[..4] + b[4..];
      }
    }
  }

  lemma FromFour(b: seq<Byte>, rest: nat)
    requires |b| >= 4 && FromLE(b[4..]) == rest
    ensures FromLE(b) == (b[0] as int) + 256 * (b[1] as int) + 65536 * (b[2] as int) + 0x100_0000 * (b[3] as int) + 0x1_0000_0000 * rest
  {
    assert b[1..][1..] == b[2..] && b[2..][1..] == b[3..] && b[3..][1..] == b[4..];
    assert FromLE(b[3..]) == b[3] + 256 * rest;
    assert FromLE(b[2..]) == b[2] + 256 * FromLE(b[3..]);
    assert FromLE(b[1..]) == b[1] + 256 * FromLE(b[2..]);
  }

  lemma SingleNaN(b: seq<Byte>)
    requires |b| == 4
    ensures IsNaN(b, false) <==> NotANumber(b)
  {
    FromFour(b, 0);
    hide FromLE;
    var low := (b[0] as int) + 256 * (b[1] as int);
    Pattern(b[3], b[2], low, 0x1_0000, 0x7F80);
    assert FromLE(b) == (256 * (b[3] as int) + (b[2] as int)) * 0x1_0000 + low;
  }

  lemma DoubleNaN(b: seq<Byte>)
    requires |b| == 8
    ensures IsNaN(b, true) <==> NotANumber(b)
  {
    assert b[4..][4..] == [];
    FromFour(b[4..], 0);
    FromFour(b, FromLE(b[4..]));
    hide FromLE;
    var low := (b[0] as int) + 256 * (b[1] as int) + 65536 * (b[2] as int) + 0x100_0000 * (b[3] as int)
               + 0x1_0000_0000 * (b[4] as int) + 0x100_0000_0000 * (b[5] as int);
    Pattern(b[7], b[6], low, 0x1_0000_0000_0000, 0x7FF0);
    assert FromLE(b) == (256 * (b[7] as int) + (b[6] as int)) * 0x1_0000_0000_0000 + low;
  }

  /** Comparison of all but the topmost bit, by the two highest bytes and the rest. */
  lemma Pattern(top: int, next: int, low: int, unit: nat, limit: nat)
    requires 0 <= top < 256 && 0 <= next < 256 && 0 <= low < unit && unit > 0
    ensures var t := 256 * (top % 128) + next;
            ((256 * top + next) * unit + low) % (0x8000 * unit) > limit * unit <==> t > limit || (t == limit && low > 0)
  {
    var t := 256 * (top % 128) + next;
    assert 256 * top + next == 0x8000 * (top / 128) + t && t < 0x8000;
    Distribute(0x8000, top / 128, t, unit);
    var r := t * unit + low;
    assert r < 0x8000 * unit by { Bounded(t, 0x8000, low, unit); }
    Remainder((256 * top + next) * unit + low, 0x8000 * unit, top / 128, r);
    Compared(t, limit, low, unit);
  }

  lemma Distribute(a: nat, q: nat, t: nat, unit: nat)
    ensures (a * q + t) * unit == a * unit * q + t * unit
  {
    assert (a * q + t) * unit == (a * q) * unit + t * unit;
    assert (a * q) * unit == a * (q * unit) == a * unit * q;
  }

  lemma Bounded(t: nat, n: nat, low: nat, unit: nat)
    requires t < n && low < unit
    ensures t * unit + low < n * unit
  {
    assert (t + 1) * unit == t * unit + unit;
    assert (t + 1) * unit <= n * unit;
  }

  lemma Remainder(i: int, d: nat, q: int, r: nat)
    requires i == d * q + r && r < d
    ensures i % d == r
  {
    Quotient(i, d, q, r);
  }

  lemma Compared(t: nat, limit: nat, low: nat, unit: nat)
    requires low < unit
    ensures t * unit + low > limit * unit <==> t > limit || (t == limit && low > 0)
  {
    if t < limit { Bounded(t, limit, low, unit); }
    if t > limit { Bounded(limit, t, 0, unit); }
  }

  /** The encoding of every scalar value is its spelling; nothing else has any. */
  lemma ScalarFormat(s: Schema, name: string, v: IdlValue, b: seq<Byte>)
    ensures Borsh(s, Scalar(name), v) == Some(b) <==> Spelled(name, v, b)
  {
    match v
    case IInt(i) => IntSpelled(name, i, b);
    case IFloat(bits) =>
      if |bits| == 4 { SingleNaN(bits); }
      if |bits| == 8 { DoubleNaN(bits); }
      FloatSpelled(name, bits, b);
    case IStr(chars) => if Utf8.Encode(chars).Some? { CountedIs(Utf8.Encode(chars).value, b); } StrSpelled(name);
    case IBytes(raw) => CountedIs(raw, b); StrSpelled(name);
    case _ => StrSpelled(name);
  }

  lemma StrSpelled(name: string)
    ensures name == "string" ==> name != "bool"
    ensures name == "bytes" ==> name != "bool" && name != "string"
    ensures name == "pubkey" ==> name != "bool" && name != "string" && name != "bytes"
  {
  }

  lemma FloatSpelled(name: string, bits: seq<Byte>, b: seq<Byte>)
    requires |bits| == 4 ==> (IsNaN(bits, false) <==> NotANumber(bits))
    requires |bits| == 8 ==> (IsNaN(bits, true) <==> NotANumber(bits))
    ensures ScalarBytes(name, IFloat(bits)) == Some(b) <==> Spelled(name, IFloat(bits), b)
  {
    hide IsNaN, NotANumber;
  }

  lemma IntSpelled(name: string, i: int, b: seq<Byte>)
    ensures ScalarBytes(name, IInt(i)) == Some(b) <==> Spelled(name, IInt(i), b)
  {
    if bits, signed :| bits in WIDTHS + {256} && name == IntName(bits, signed) {
      IntNameUnique(bits, signed);
      OneInteger(bits, signed, i, b);
    } else {
      NoInteger(name);
    }
  }

  lemma OneInteger(bits: nat, signed: bool, i: int, b: seq<Byte>)
    requires bits in WIDTHS + {256}
    ensures ScalarBytes(IntName(bits, signed), IInt(i)) == Some(b) <==>
            Representable(i, bits, signed) && |b| == bits / 8 && Digits(i, b)
  {
    hide IntSpec, IntName, InRange, Representable, Digits;
    SpecIs(bits, signed);
    RangeIs(i, bits, signed);
    IntNameOnly(bits, signed);
    if InRange(i, bits / 8, signed) {
      IntDigits(i, bits / 8, signed);
      var e := IntToLE(i, bits / 8, signed).value;
      if |b| == bits / 8 && Digits(i, b) { DigitsUnique(i, e, b); }
    }
  }

  /** No two integer types share a name. */
  lemma IntNameUnique(bits: nat, signed: bool)
    ensures forall bits', signed' :: IntName(bits', signed') == IntName(bits, signed) ==> bits' == bits && signed' == signed
  {
    forall bits', signed' | IntName(bits', signed') == IntName(bits, signed) ensures bits' == bits && signed' == signed {
      var a, b := IntName(bits', signed'), IntName(bits, signed);
      assert a[0] == (if signed' then 'i' else 'u') && b[0] == (if signed then 'i' else 'u');
      assert a[1..] == Text.Decimal(bits') && b[1..] == Text.Decimal(bits);
      Text.NumberDecimal(bits');
      Text.NumberDecimal(bits);
    }
  }

  lemma NoInteger(name: string)
    requires forall bits, signed :: bits in WIDTHS + {256} ==> name != IntName(bits, signed)
    ensures IntSpec(name) == None
  {
    Names();
    hide IntName;
    assert name != IntName(8, false) && name != IntName(8, true) && name != IntName(16, false) && name != IntName(16, true);
    assert name != IntName(32, false) && name != IntName(32, true) && name != IntName(64, false) && name != IntName(64, true);
    assert name != IntName(128, false) && name != IntName(128, true) && name != IntName(256, false) && name != IntName(256, true);
  }

  // ----- which types are lowered --------------------------------------------------------------

  /** Types the generator knows, over the defined types that are there. */
  ghost predicate Known(t: Idl, usable: string -> bool, names: set<string>) {
    match t
    case Scalar(name) =>
      || name in {"bool", "string", "bytes", "pubkey", "f32", "f64"}
      || exists bits, signed :: bits in WIDTHS && name == IntName(bits, signed)
    case OptionOf(inner) => Known(inner, usable, names)
    case VecOf(inner) => Known(inner, usable, names)
    case ArrayOf(elem, length) => length.Some? && Known(elem, usable, names)
    case DefinedAs(name) => name != "" && usable(name) && name in names
    case _ => false
  }

  /** Exactly the known types are lowered. */
  lemma {:induction false} LoweredIff(t: Idl, usable: string -> bool, ids: map<string, nat>, chained: bool)
    requires chained ==> t.OptionOf?
    ensures NodeOf(t, usable, ids, chained).Some? <==> Known(t, usable, ids.Keys)
    decreases t
  {
    match t
    case Scalar(name) => ScalarLoweredIff(name, usable, ids);
    case OptionOf(inner) => LoweredIff(inner, usable, ids, inner.OptionOf?);
    case VecOf(inner) => LoweredIff(inner, usable, ids, false);
    case ArrayOf(elem, length) =>
      LoweredIff(elem, usable, ids, false);
      if elem == Scalar("u8") { ByteKnown(); }
    case _ =>
  }

  lemma ByteKnown()
    ensures exists bits, signed :: bits in WIDTHS && "u8" == IntName(bits, signed)
  {
    Names();
    hide IntName;
    assert 8 in WIDTHS && "u8" == IntName(8, false);
  }

  lemma ScalarLoweredIff(name: string, usable: string -> bool, ids: map<string, nat>)
    ensures Lower(Scalar(name), usable, ids).Some? <==> Known(Scalar(name), usable, ids.Keys)
  {
    WidthsAre(name);
    if name in IDL_WIDTHS { AliasKnown(name); }
    hide IDL_WIDTHS, AliasNode, IntName;
    assert AliasNode("pubkey").Some? by { AliasKnown("pubkey"); }
  }

  lemma AliasKnown(name: string)
    requires name in IDL_WIDTHS || name == "pubkey"
    ensures AliasNode(name).Some?
  {
  }

  lemma WidthsAre(name: string)
    ensures name in IDL_WIDTHS <==> name in {"f32", "f64"} || exists bits, signed :: bits in WIDTHS && name == IntName(bits, signed)
  {
    Names();
    hide IntName;
    if name in IDL_WIDTHS && name !in {"f32", "f64"} {
      var bits :| bits in WIDTHS && (name == IntName(bits, true) || name == IntName(bits, false));
    }
  }
}
