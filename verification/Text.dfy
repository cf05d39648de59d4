/** Trimming, splitting on whitespace, and decimal numerals. What counts as whitespace is a
    parameter, since Rust and Python differ. */
module Text {
  import opened Wrappers

  predicate Blank(s: string, ws: char -> bool) {
    forall i :: 0 <= i < |s| ==> ws(s[i])
  }

  /** A non-empty string without whitespace. */
  predicate Word(s: string, ws: char -> bool) {
    s != "" && forall i :: 0 <= i < |s| ==> !ws(s[i])
  }

  function TrimStart(s: string, ws: char -> bool): (r: string)
    ensures r != "" ==> !ws(r[0])
    ensures r == "" <==> Blank(s, ws)
  {
    if s != "" && ws(s[0]) then
      assert Blank(s[1..], ws) ==> forall i :: 1 <= i < |s| ==> s[i] == s[1..][i - 1];
      TrimStart(s[1..], ws)
    else s
  }

  function TrimEnd(s: string, ws: char -> bool): (r: string)
    ensures r <= s
    ensures r != "" ==> !ws(r[|r| - 1])
    ensures r == "" <==> Blank(s, ws)
  {
    if s != "" && ws(s[|s| - 1]) then TrimEnd(s[..|s| - 1], ws) else s
  }

  function Trim(s: string, ws: char -> bool): string {
    TrimEnd(TrimStart(s, ws), ws)
  }

  lemma TrimKept(s: string, ws: char -> bool)
    requires s != "" && !ws(s[0]) && !ws(s[|s| - 1])
    ensures Trim(s, ws) == s && !Blank(s, ws)
  {
  }

  lemma TrimEndLast(s: string, c: char, ws: char -> bool)
    ensures TrimEnd(s + [c], ws) == if ws(c) then TrimEnd(s, ws) else s + [c]
    ensures Blank(s + [c], ws) <==> ws(c) && Blank(s, ws)
  {
    assert (s + [c])[..|s|] == s;
  }

  lemma {:induction false} TrimEndAppend(a: string, b: string, ws: char -> bool)
    ensures TrimEnd(a + b, ws) == if Blank(b, ws) then TrimEnd(a, ws) else a + TrimEnd(b, ws)
    decreases |b|
  {
    if b == "" {
      assert a + b == a;
    } else {
      hide TrimEnd, Blank;
      var b', c := b[..|b| - 1], b[|b| - 1];
      assert b == b' + [c] && a + b == (a + b') + [c];
      TrimEndLast(b', c, ws);
      TrimEndLast(a + b', c, ws);
      if ws(c) { TrimEndAppend(a, b', ws); }
    }
  }

  // ----- words --------------------------------------------------------------------------------

  /** Length of the whitespace-free stretch at the front. */
  function WordLen(s: string, ws: char -> bool): (n: nat)
    ensures n <= |s|
    ensures forall i :: 0 <= i < n ==> !ws(s[i])
    ensures n < |s| ==> ws(s[n])
  {
    if s == "" || ws(s[0]) then 0 else 1 + WordLen(s[1..], ws)
  }

  /** `split_whitespace`. */
  function Tokens(s: string, ws: char -> bool): seq<string>
    decreases |s|
  {
    if s == "" then []
    else if ws(s[0]) then Tokens(s[1..], ws)
    else
      var n := WordLen(s, ws);
      [s[..n]] + Tokens(s[n..], ws)
  }

  lemma WordLenIs(s: string, ws: char -> bool, n: nat)
    requires n <= |s| && (forall i :: 0 <= i < n ==> !ws(s[i])) && (n < |s| ==> ws(s[n]))
    ensures WordLen(s, ws) == n
  {
  }

  /** A word, a whitespace character, and the rest. */
  lemma TokensCons(w: string, c: char, rest: string, ws: char -> bool)
    requires Word(w, ws) && ws(c)
    ensures Tokens(w + [c] + rest, ws) == [w] + Tokens(rest, ws)
  {
    var s := w + [c] + rest;
    WordLenIs(s, ws, |w|);
    assert s[..|w|] == w && s[|w|..] == [c] + rest && ([c] + rest)[1..] == rest;
  }

  lemma TokensWord(w: string, ws: char -> bool)
    requires Word(w, ws)
    ensures Tokens(w, ws) == [w]
  {
    WordLenIs(w, ws, |w|);
    assert w[..|w|] == w && w[|w|..] == "";
  }

  lemma {:induction false} TokensBlank(s: string, ws: char -> bool)
    requires Blank(s, ws)
    ensures Tokens(s, ws) == []
  {
    if s != "" { TokensBlank(s[1..], ws); }
  }

  /** Whitespace at the end makes no difference. */
  lemma {:induction false} TokensTrimEnd(s: string, ws: char -> bool)
    ensures Tokens(TrimEnd(s, ws), ws) == Tokens(s, ws)
    decreases |s|
  {
    hide TrimEnd, Tokens;
    if s == "" {
      NothingTrimmed(ws);
    } else if ws(s[0]) {
      TokensTrimEnd(s[1..], ws);
      BlankFirst(s, ws);
    } else {
      var n := WordLen(s, ws);
      TokensTrimEnd(s[n..], ws);
      WordFirst(s, n, ws);
    }
  }

  lemma NothingTrimmed(ws: char -> bool)
    ensures TrimEnd("", ws) == ""
  {
  }

  lemma BlankSkipped(s: string, ws: char -> bool)
    requires s != "" && ws(s[0])
    ensures Tokens(s, ws) == Tokens(s[1..], ws)
  {
  }

  lemma BlankFirst(s: string, ws: char -> bool)
    requires s != "" && ws(s[0]) && Tokens(TrimEnd(s[1..], ws), ws) == Tokens(s[1..], ws)
    ensures Tokens(TrimEnd(s, ws), ws) == Tokens(s, ws)
  {
    hide TrimEnd, Tokens;
    var rest := s[1..];
    TrimEndAppend([s[0]], rest, ws);
    assert [s[0]] + rest == s;
    BlankSkipped(s, ws);
    if Blank(rest, ws) {
      TokensBlank(rest, ws);
      OneBlank(s[0], ws);
      NoTokens(ws);
    } else {
      var t := [s[0]] + TrimEnd(rest, ws);
      assert t[1..] == TrimEnd(rest, ws);
      BlankSkipped(t, ws);
    }
  }

  lemma OneBlank(c: char, ws: char -> bool)
    requires ws(c)
    ensures TrimEnd([c], ws) == ""
  {
  }

  lemma NoTokens(ws: char -> bool)
    ensures Tokens("", ws) == []
  {
  }

  lemma WordTaken(s: string, n: nat, ws: char -> bool)
    requires s != "" && !ws(s[0]) && n == WordLen(s, ws)
    ensures Tokens(s, ws) == [s[..n]] + Tokens(s[n..], ws)
  {
  }

  lemma WordFirst(s: string, n: nat, ws: char -> bool)
    requires s != "" && !ws(s[0]) && n == WordLen(s, ws) && Tokens(TrimEnd(s[n..], ws), ws) == Tokens(s[n..], ws)
    ensures Tokens(TrimEnd(s, ws), ws) == Tokens(s, ws)
  {
    hide TrimEnd, Tokens, WordLen;
    var w, rest := s[..n], s[n..];
    assert w + rest == s;
    TrimEndAppend(w, rest, ws);
    WordTaken(s, n, ws);
    if Blank(rest, ws) {
      TokensBlank(rest, ws);
      WordAlone(s, n, ws);
    } else {
      var t := w + TrimEnd(rest, ws);
      WordKept(s, n, t, ws);
      WordTaken(t, n, ws);
      assert t[..n] == w && t[n..] == TrimEnd(rest, ws);
    }
  }

  lemma WordAlone(s: string, n: nat, ws: char -> bool)
    requires s != "" && !ws(s[0]) && n == WordLen(s, ws)
    ensures TrimEnd(s[..n], ws) == s[..n] && Tokens(s[..n], ws) == [s[..n]]
  {
    TokensWord(s[..n], ws);
  }

  lemma WordKept(s: string, n: nat, t: string, ws: char -> bool)
    requires s != "" && !ws(s[0]) && n == WordLen(s, ws) && !Blank(s[n..], ws) && t == s[..n] + TrimEnd(s[n..], ws)
    ensures t != "" && !ws(t[0]) && WordLen(t, ws) == n
  {
    var rest := s[n..];
    assert TrimEnd(rest, ws)[0] == rest[0];
    assert n < |t| ==> t[n] == rest[0];
    WordLenIs(t, ws, n);
  }

  // ----- decimal ------------------------------------------------------------------------------

  function Digit(d: nat): char
    requires d < 10
  {
    '0' + d as char
  }

  predicate IsDigit(c: char) {
    '0' <= c <= '9'
  }

  /** Decimal without leading zeros. */
  function Decimal(n: nat): (r: string)
    ensures r != "" && forall i :: 0 <= i < |r| ==> IsDigit(r[i])
  {
    if n < 10 then [Digit(n)] else Decimal(n / 10) + [Digit(n % 10)]
  }

  /** The number a string of digits denotes. */
  function Number(s: string): (r: Option<nat>)
    ensures r.Some? <==> s != "" && forall i :: 0 <= i < |s| ==> IsDigit(s[i])
  {
    if s == "" || !IsDigit(s[|s| - 1]) then None
    else
      var d := (s[|s| - 1] - '0') as nat;
      if |s| == 1 then Some(d)
      else
        var front := Number(s[..|s| - 1]);
        if front.None? then None else Some(10 * front.value + d)
  }

  lemma {:induction false} NumberDecimal(n: nat)
    ensures Number(Decimal(n)) == Some(n)
  {
    if n >= 10 {
      NumberDecimal(n / 10);
      var s := Decimal(n);
      assert s[..|s| - 1] == Decimal(n / 10) && s[|s| - 1] == Digit(n % 10);
    }
  }

  // ----- search -------------------------------------------------------------------------------

  predicate At(s: string, pat: string, i: nat) {
    i + |pat| <= |s| && s[i..i + |pat|] == pat
  }

  /** The first place where `pat` occurs. */
  function Find(s: string, pat: string, from: nat): (r: Option<nat>)
    requires from <= |s|
    ensures r.Some? ==> r.value >= from && At(s, pat, r.value) && forall j :: from <= j < r.value ==> !At(s, pat, j)
    ensures r.None? ==> forall j :: from <= j <= |s| ==> !At(s, pat, j)
    decreases |s| - from
  {
    if At(s, pat, from) then Some(from)
    else if from == |s| then None
    else Find(s, pat, from + 1)
  }
}
