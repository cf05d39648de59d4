/** Which texts are numbers to the reader, and which lines are entries. */
module LcovNumbers {
  import opened Wrappers
  import Text
  import opened Lcov
  import opened LcovTheorems

  /** Digits, with single underscores between them. */
  predicate Numeral(t: string) {
    t != "" && forall i :: 0 <= i < |t| ==> Allowed(t, i)
  }

  /** A digit, or an underscore between two. */
  predicate Allowed(t: string, i: nat)
    requires i < |t|
  {
    Text.IsDigit(t[i]) || (t[i] == '_' && 0 < i < |t| - 1 && Text.IsDigit(t[i - 1]) && Text.IsDigit(t[i + 1]))
  }

  /** The number, underscores passed over. */
  function Value(t: string): nat {
    if t == "" then 0
    else
      var c := t[|t| - 1];
      if Text.IsDigit(c) then 10 * Value(t[..|t| - 1]) + (c - '0') as nat else Value(t[..|t| - 1])
  }

  function Applied(sign: string, n: nat): int {
    if sign == "-" then -(n as int) else n
  }

  /** `s` is a numeral with at most one sign in front and blanks around it. */
  predicate Spelt(s: string, n: int, a: string, sign: string, t: string, b: string) {
    && s == a + (sign + t) + b && Text.Blank(a, Space) && Text.Blank(b, Space)
    && (sign == "" || sign == "+" || sign == "-") && Numeral(t) && n == Applied(sign, Value(t))
  }

  // ----- blanks -------------------------------------------------------------------------------

  lemma {:induction false} TrimStartBlank(a: string, x: string)
    requires Text.Blank(a, Space)
    ensures Text.TrimStart(a + x, Space) == Text.TrimStart(x, Space)
    decreases |a|
  {
    hide Space;
    if a == "" {
      assert a + x == x;
    } else {
      assert (a + x)[1..] == a[1..] + x && (a + x)[0] == a[0];
      TrimStartBlank(a[1..], x);
    }
  }

  lemma TrimAround(a: string, core: string, b: string)
    requires Text.Blank(a, Space) && Text.Blank(b, Space) && core != "" && !Space(core[0]) && !Space(core[|core| - 1])
    ensures Text.Trim(a + core + b, Space) == core
  {
    assert a + core + b == a + (core + b);
    TrimStartBlank(a, core + b);
    assert (core + b)[0] == core[0];
    assert Text.TrimStart(core + b, Space) == core + b;
    Text.TrimEndAppend(core, b, Space);
    assert Text.TrimEnd(core, Space) == core;
  }

  lemma {:induction false} StartSplit(s: string) returns (a: string)
    ensures Text.Blank(a, Space) && s == a + Text.TrimStart(s, Space)
  {
    hide Space;
    if s != "" && Space(s[0]) {
      var rest := StartSplit(s[1..]);
      a := [s[0]] + rest;
      assert s == [s[0]] + s[1..];
    } else {
      a := "";
    }
  }

  lemma {:induction false} EndSplit(s: string) returns (b: string)
    ensures Text.Blank(b, Space) && s == Text.TrimEnd(s, Space) + b
  {
    hide Space;
    if s != "" && Space(s[|s| - 1]) {
      var rest := EndSplit(s[..|s| - 1]);
      b := rest + [s[|s| - 1]];
      assert s == s[..|s| - 1] + [s[|s| - 1]];
    } else {
      b := "";
    }
  }

  lemma TrimSplit(s: string) returns (a: string, b: string)
    ensures Text.Blank(a, Space) && Text.Blank(b, Space) && s == a + Text.Trim(s, Space) + b
  {
    a := StartSplit(s);
    b := EndSplit(Text.TrimStart(s, Space));
    assert a + (Text.Trim(s, Space) + b) == a + Text.Trim(s, Space) + b;
  }

  // ----- digits -------------------------------------------------------------------------------

  lemma {:induction false} UngroupedLast(t: string, c: char)
    ensures Ungrouped(t + [c]) == Ungrouped(t) + if c == '_' then "" else [c]
    decreases |t|
  {
    var s := t + [c];
    if t == "" {
      assert s == [c] && s[1..] == "" && Ungrouped("") == "";
    } else {
      UngroupedLast(t[1..], c);
      assert s[1..] == t[1..] + [c] && s[0] == t[0];
      var x, y, z := if t[0] == '_' then "" else [t[0]], Ungrouped(t[1..]), if c == '_' then "" else [c];
      assert Ungrouped(s) == x + Ungrouped(s[1..]) && Ungrouped(t) == x + y;
      assert x + (y + z) == x + y + z;
    }
  }

  predicate Mixed(t: string) {
    forall i :: 0 <= i < |t| ==> Text.IsDigit(t[i]) || t[i] == '_'
  }

  lemma {:induction false} UngroupedIs(t: string)
    ensures AllDigits(Ungrouped(t)) <==> Mixed(t)
    ensures Mixed(t) && Ungrouped(t) != "" ==> Text.Number(Ungrouped(t)) == Some(Value(t))
    ensures Mixed(t) && Ungrouped(t) == "" ==> Value(t) == 0
    decreases |t|
  {
    if t != "" {
      var front, c := t[..|t| - 1], t[|t| - 1];
      assert t == front + [c];
      UngroupedIs(front);
      UngroupedLast(front, c);
      MixedLast(front, c);
      var u := Ungrouped(front);
      hide Ungrouped, Text.Number, Mixed, AllDigits;
      if c == '_' {
        assert u + "" == u;
      } else {
        DigitsLast(u, c);
        if Text.IsDigit(c) && Mixed(front) { NumberLast(u, c); }
      }
    }
  }

  predicate AllDigits(u: string) {
    forall i :: 0 <= i < |u| ==> Text.IsDigit(u[i])
  }

  lemma MixedLast(t: string, c: char)
    ensures Mixed(t + [c]) <==> Mixed(t) && (Text.IsDigit(c) || c == '_')
  {
    var s := t + [c];
    assert s[|t|] == c && forall i :: 0 <= i < |t| ==> s[i] == t[i];
  }

  lemma DigitsLast(u: string, c: char)
    ensures AllDigits(u + [c]) <==> AllDigits(u) && Text.IsDigit(c)
  {
    var s := u + [c];
    assert s[|u|] == c && forall i :: 0 <= i < |u| ==> s[i] == u[i];
  }

  lemma NumberLast(u: string, c: char)
    requires Text.IsDigit(c) && (u == "" || Text.Number(u).Some?)
    ensures Text.Number(u + [c]) == Some(10 * (if u == "" then 0 else Text.Number(u).value) + (c - '0') as nat)
  {
    assert (u + [c])[..|u|] == u;
  }

  lemma NumeralIff(t: string)
    ensures Numeral(t) <==> Grouped(t) && Text.Number(Ungrouped(t)).Some?
    ensures Numeral(t) ==> Text.Number(Ungrouped(t)) == Some(Value(t))
  {
    UngroupedIs(t);
    assert Text.Number(Ungrouped(t)).Some? <==> Ungrouped(t) != "" && AllDigits(Ungrouped(t));
    if t != "" && t[0] != '_' { assert Ungrouped(t) == [t[0]] + Ungrouped(t[1..]); }
    assert t == "" ==> Ungrouped(t) == "";
    hide Text.Number, Value, Ungrouped, AllDigits;
    if t != "" { GroupedIff(t); }
  }

  lemma GroupedIff(t: string)
    requires t != ""
    ensures Numeral(t) <==> Grouped(t) && Mixed(t)
  {
    if Grouped(t) && Mixed(t) {
      forall i | 0 <= i < |t| ensures Allowed(t, i) { }
    }
    if Numeral(t) {
      assert Allowed(t, 0) && Allowed(t, |t| - 1);
      forall i | 0 <= i < |t| ensures Text.IsDigit(t[i]) || t[i] == '_' { assert Allowed(t, i); }
      forall i | 1 <= i < |t| ensures t[i - 1] != '_' || t[i] != '_' { assert Allowed(t, i); }
    }
  }

  // ----- numbers ------------------------------------------------------------------------------

  lemma NumeralEnds(sign: string, t: string)
    requires Numeral(t) && (sign == "" || sign == "+" || sign == "-")
    ensures var core := sign + t;
            && core != "" && !Space(core[0]) && !Space(core[|core| - 1])
            && (core[0] == '+' <==> sign == "+") && (core[0] == '-' <==> sign == "-")
            && (sign != "" ==> core[1..] == t) && (sign == "" ==> core == t)
  {
    assert Allowed(t, 0) && Allowed(t, |t| - 1);
  }

  /** Python's `int` takes a text for `n` exactly if it is spelt as `n`. */
  lemma IntIff(s: string, n: int)
    ensures ParseInt(s) == Some(n) <==> exists a, sign, t, b :: Spelt(s, n, a, sign, t, b)
  {
    hide Space, Text.Trim, Text.Number, Grouped, Ungrouped, Numeral, Value;
    if ParseInt(s) == Some(n) {
      var core := Text.Trim(s, Space);
      var a, b := TrimSplit(s);
      var signed := core != "" && (core[0] == '+' || core[0] == '-');
      var sign, t := if signed then core[..1] else "", if signed then core[1..] else core;
      assert core == sign + t;
      NumeralIff(t);
      assert Spelt(s, n, a, sign, t, b);
    }
    if a, sign, t, b :| Spelt(s, n, a, sign, t, b) {
      NumeralEnds(sign, t);
      TrimAround(a, sign + t, b);
      NumeralIff(t);
    }
  }

  // ----- entries ------------------------------------------------------------------------------

  /** An entry has a number in front of the first comma and a count behind it, up to the next; what
      follows, such as a checksum, is passed over. */
  lemma EntryIs(a: string, b: string, rest: string)
    requires ',' !in a && ',' !in b && (rest == "" || rest[0] == ',')
    ensures Entry(a + "," + b + rest)
            == if ParseInt(a).Some? && ParseInt(b).Some? then Some((ParseInt(a).value, ParseInt(b).value)) else None
  {
    hide ParseInt, Text.WordLen;
    var s, more := a + "," + b + rest, b + rest;
    assert s == a + [','] + more && s[..|a|] == a && s[|a| + 1..] == more;
    WordLenAt(a, ',', more, Comma);
    FieldEnd(b, rest);
    assert more[..|b|] == b;
  }

  lemma FieldEnd(b: string, rest: string)
    requires ',' !in b && (rest == "" || rest[0] == ',')
    ensures Text.WordLen(b + rest, Comma) == |b|
  {
    if rest != "" {
      assert b + rest == b + [','] + rest[1..];
      WordLenAt(b, ',', rest[1..], Comma);
    } else {
      assert b + rest == b;
    }
  }

  /** Without a comma there is none. */
  lemma NoCount(a: string)
    requires ',' !in a
    ensures Entry(a) == None
  {
    assert Text.WordLen(a, Comma) == |a| && Text.WordLen("", Comma) == 0;
    assert ParseInt("") == None;
  }
}
