/** Which frame a `Custom(code)` failure came from: the search in the trace builder and the line
    the renderer shows agree. */
module ErrorOrigin {
  import opened Wrappers
  import opened Text
  import opened LogLines

  datatype Frame = Frame(pid: string, failed: bool, error: Option<string>, children: seq<Frame>)

  // ----- the two parsers ----------------------------------------------------------------------

  function HexValue(c: char): Option<nat> {
    if '0' <= c <= '9' then Some((c - '0') as nat)
    else if 'a' <= c <= 'f' then Some((c - 'a') as nat + 10)
    else if 'A' <= c <= 'F' then Some((c - 'A') as nat + 10)
    else None
  }

  function HexNumber(s: string): (r: Option<nat>)
    ensures r.Some? <==> s != "" && forall i :: 0 <= i < |s| ==> HexValue(s[i]).Some?
  {
    if s == "" then None
    else
      var d := HexValue(s[|s| - 1]);
      if d.None? then None
      else if |s| == 1 then d
      else
        var front := HexNumber(s[..|s| - 1]);
        if front.None? then None else Some(16 * front.value + d.value)
  }

  const MARK: string := "custom program error: 0x"

  const U32_MAX: nat := 0xFFFF_FFFF

  /** `parse_custom_code`: the whole message is the mark and a `u32` in hexadecimal. */
  function CodeInTrace(msg: string): Option<nat> {
    var l := Trim(msg, Ws);
    if !(MARK <= l) then None
    else
      var toks := Tokens(l[|MARK|..], Ws);
      var hex := if toks == [] then l[|MARK|..] else toks[0];
      var digits := if hex != "" && hex[0] == '+' then hex[1..] else hex;
      var n := HexNumber(digits);
      if n.Some? && n.value <= U32_MAX then n else None
  }

  function HexRun(s: string): (n: nat)
    ensures n <= |s| && (forall i :: 0 <= i < n ==> HexValue(s[i]).Some?)
    ensures n < |s| ==> HexValue(s[n]).None?
  {
    if s == "" || HexValue(s[0]).None? then 0 else 1 + HexRun(s[1..])
  }

  /** `_custom_error_code`: the first place where the mark is followed by hex digits. */
  function CodeInRenderer(msg: string, from: nat): Option<nat>
    requires from <= |msg|
    decreases |msg| - from
  {
    var i := Find(msg, MARK, from);
    if i.None? then None
    else
      var rest := msg[i.value + |MARK|..];
      var n := HexRun(rest);
      if n > 0 then HexNumber(rest[..n]) else CodeInRenderer(msg, i.value + 1)
  }

  function HexDigit(d: nat): char
    requires d < 16
  {
    if d < 10 then '0' + d as char else 'a' + (d - 10) as char
  }

  function Hex(n: nat): (r: string)
    ensures r != "" && forall i :: 0 <= i < |r| ==> HexValue(r[i]).Some? && !Ws(r[i]) && r[i] != '+'
  {
    if n < 16 then [HexDigit(n)] else Hex(n / 16) + [HexDigit(n % 16)]
  }

  /** Digits are read in either case. */
  lemma HexDigitRead(d: nat)
    requires d < 16
    ensures HexValue(HexDigit(d)) == Some(d) && (d >= 10 ==> HexValue('A' + (d - 10) as char) == Some(d))
  {
  }

  lemma {:induction false} HexBack(n: nat)
    ensures HexNumber(Hex(n)) == Some(n)
  {
    if n >= 16 {
      HexBack(n / 16);
      var s := Hex(n);
      assert s[..|s| - 1] == Hex(n / 16) && s[|s| - 1] == HexDigit(n % 16);
    }
  }

  /** A failure text as the runtime writes it: the mark with a code, or prose without the mark. */
  ghost predicate RuntimeText(msg: string) {
    || (exists n :: 0 <= n <= U32_MAX && msg == MARK + Hex(n))
    || (forall j :: 0 <= j <= |msg| ==> !At(msg, MARK, j))
  }

  lemma CodeTrimmed(n: nat)
    ensures !Blank(MARK + Hex(n), Ws) && Trim(MARK + Hex(n), Ws) == MARK + Hex(n)
  {
    hide Hex;
    var msg := MARK + Hex(n);
    assert msg[0] == 'c' && msg[|msg| - 1] == Hex(n)[|Hex(n)| - 1];
    TrimKept(msg, Ws);
  }

  lemma TraceReadsCode(n: nat)
    requires n <= U32_MAX
    ensures CodeInTrace(MARK + Hex(n)) == Some(n)
  {
    hide Hex, HexNumber, Trim, Tokens;
    var msg := MARK + Hex(n);
    assert msg[|MARK|..] == Hex(n);
    CodeTrimmed(n);
    TokensWord(Hex(n), Ws);
    HexBack(n);
  }

  /** The two parsers on a code as the runtime prints it. The tracer takes codes of 32 bits only. */
  lemma CodeRead(n: nat)
    ensures CodeInTrace("custom program error: 0x" + Hex(n)) == if n < 0x1_0000_0000 then Some(n) else None
    ensures CodeInRenderer("custom program error: 0x" + Hex(n), 0) == Some(n)
  {
    hide Hex, HexNumber, Trim, Tokens, CodeInRenderer;
    var msg := MARK + Hex(n);
    assert msg[|MARK|..] == Hex(n);
    CodeTrimmed(n);
    TokensWord(Hex(n), Ws);
    HexBack(n);
    RendererReadsCode(n);
  }

  /** They differ on a sign, which the tracer passes over and the renderer does not; the runtime prints
      none. */
  lemma SignedCode(n: nat)
    requires n <= U32_MAX
    ensures CodeInTrace("custom program error: 0x+" + Hex(n)) == Some(n)
    ensures CodeInRenderer("custom program error: 0x+" + Hex(n), 0) == None
  {
    hide Hex, HexNumber, Trim, Tokens, CodeInRenderer;
    var word := "+" + Hex(n);
    var msg := MARK + word;
    assert msg == "custom program error: 0x+" + Hex(n) && msg[|MARK|..] == word;
    assert word[0] == '+' && word[1..] == Hex(n) && Word(word, Ws);
    assert msg[0] == 'c' && msg[|msg| - 1] == Hex(n)[|Hex(n)| - 1];
    TrimKept(msg, Ws);
    TokensWord(word, Ws);
    HexBack(n);
    SignUnread(n);
  }

  lemma SignUnread(n: nat)
    ensures CodeInRenderer(MARK + ("+" + Hex(n)), 0) == None
  {
    hide Hex, HexNumber;
    var word := "+" + Hex(n);
    var msg := MARK + word;
    assert msg[..|MARK|] == MARK && At(msg, MARK, 0) && msg[|MARK|..] == word;
    assert word[0] == '+' && HexRun(word) == 0;
    forall j | 1 <= j <= |msg| ensures !At(msg, MARK, j) { NoOtherMark(msg, word, j); }
  }

  lemma NoOtherMark(msg: string, word: string, j: nat)
    requires msg == MARK + word && ' ' !in word && 1 <= j
    ensures !At(msg, MARK, j)
  {
    assert MARK[21] == ' ' && MARK[22] == '0' && MARK[23] == 'x' && |MARK| == 24;
    assert forall k :: 22 <= k < |msg| ==> msg[k] != ' ';
    assert j + |MARK| <= |msg| ==> msg[j..j + |MARK|][21] == msg[j + 21] != ' ';
  }

  lemma RendererReadsCode(n: nat)
    ensures CodeInRenderer(MARK + Hex(n), 0) == Some(n)
  {
    hide Hex, HexNumber;
    var msg, hex := MARK + Hex(n), Hex(n);
    assert msg[..|MARK|] == MARK && At(msg, MARK, 0);
    assert msg[|MARK|..] == hex && hex[..|hex|] == hex;
    assert HexRun(hex) == |hex|;
    HexBack(n);
  }

  lemma TrimIsInside(s: string) returns (i: nat)
    ensures i <= |s| && Trim(s, Ws) <= s[i..]
  {
    i := SkipBlanks(s);
    assert s[i..] == TrimStart(s, Ws);
  }

  lemma {:induction false} SkipBlanks(s: string) returns (i: nat)
    ensures i <= |s| && s[i..] == TrimStart(s, Ws)
  {
    if s != "" && Ws(s[0]) {
      var k := SkipBlanks(s[1..]);
      i := k + 1;
      assert s[i..] == s[1..][k..];
    } else {
      i := 0;
    }
  }

  lemma MarkInside(msg: string)
    requires MARK <= Trim(msg, Ws)
    ensures exists j :: 0 <= j <= |msg| && At(msg, MARK, j)
  {
    var i := TrimIsInside(msg);
    var l := Trim(msg, Ws);
    assert msg[i..i + |MARK|] == l[..|MARK|];
    assert At(msg, MARK, i);
  }

  /** On texts the runtime writes the two parsers agree. */
  lemma CodesAgree(msg: string)
    requires RuntimeText(msg)
    ensures CodeInTrace(msg) == CodeInRenderer(msg, 0)
  {
    if n :| 0 <= n <= U32_MAX && msg == MARK + Hex(n) {
      TraceReadsCode(n);
      RendererReadsCode(n);
    } else {
      hide HexNumber, Tokens;
      if MARK <= Trim(msg, Ws) { MarkInside(msg); }
    }
  }

  // ----- the search ---------------------------------------------------------------------------

  function TraceCode(f: Frame): Option<nat> {
    if f.error.Some? then CodeInTrace(f.error.value) else None
  }

  /** Failed frames in execution order. */
  function FailedFrames(fs: seq<Frame>): seq<Frame>
    decreases fs, 0
  {
    if fs == [] then []
    else FailedIn(fs[0]) + FailedFrames(fs[1..])
  }

  function FailedIn(f: Frame): seq<Frame>
    decreases f, 0
  {
    (if f.failed then [f] else []) + FailedFrames(f.children)
  }

  function Codes(fs: seq<Frame>): (r: seq<Option<nat>>)
    ensures |r| == |fs| && forall i :: 0 <= i < |fs| ==> r[i] == TraceCode(fs[i])
  {
    seq(|fs|, (i: nat) requires i < |fs| => TraceCode(fs[i]))
  }

  function LastCode(cs: seq<Option<nat>>, code: nat): (r: Option<nat>)
    ensures r.Some? ==> r.value < |cs| && cs[r.value] == Some(code)
    ensures r.Some? ==> forall j :: r.value < j < |cs| ==> cs[j] != Some(code)
    ensures r.None? ==> forall j :: 0 <= j < |cs| ==> cs[j] != Some(code)
  {
    if cs == [] then None
    else if cs[|cs| - 1] == Some(code) then Some(|cs| - 1)
    else LastCode(cs[..|cs| - 1], code)
  }

  /** The last frame of a list that logged `code`. */
  function LastWith(fs: seq<Frame>, code: nat): (r: Option<nat>)
    ensures r.Some? ==> r.value < |fs|
  {
    LastCode(Codes(fs), code)
  }

  function LastPid(fs: seq<Frame>, code: nat, otherwise: Option<string>): Option<string> {
    var i := LastWith(fs, code);
    if i.Some? then Some(fs[i.value].pid) else otherwise
  }

  function LastFailed(fs: seq<Frame>, otherwise: Option<string>): Option<string> {
    if fs == [] then otherwise else Some(fs[|fs| - 1].pid)
  }

  lemma {:induction false} LastCodeConcat(a: seq<Option<nat>>, b: seq<Option<nat>>, code: nat)
    ensures LastCode(a + b, code) ==
            if LastCode(b, code).Some? then Some(|a| + LastCode(b, code).value) else LastCode(a, code)
    decreases b
  {
    if b == [] {
      assert a + b == a;
    } else {
      var b' := b[..|b| - 1];
      assert (a + b)[..|a + b| - 1] == a + b' && (a + b)[|a + b| - 1] == b[|b| - 1];
      LastCodeConcat(a, b', code);
    }
  }

  lemma LastPidConcat(a: seq<Frame>, b: seq<Frame>, code: nat, o: Option<string>)
    ensures LastPid(a + b, code, o) == LastPid(b, code, LastPid(a, code, o))
    ensures LastFailed(a + b, o) == LastFailed(b, LastFailed(a, o))
  {
    hide TraceCode;
    if b == [] {
      assert a + b == a;
    } else {
      assert Codes(a + b) == Codes(a) + Codes(b);
      LastCodeConcat(Codes(a), Codes(b), code);
    }
  }

  /** The walk of `failing_program`: its accumulators end up with the last failed frame in
      execution order, and the last one that logged the code. */
  method Walk(fs: seq<Frame>, code: nat, matched0: Option<string>, failed0: Option<string>)
    returns (matched: Option<string>, failed: Option<string>)
    ensures matched == LastPid(FailedFrames(fs), code, matched0)
    ensures failed == LastFailed(FailedFrames(fs), failed0)
    decreases fs
  {
    hide TraceCode, LastPid, LastFailed, FailedFrames;
    matched, failed := matched0, failed0;
    LastNone(code, matched0, failed0);
    ghost var done: seq<Frame> := [];
    assert fs[0..] == fs && [] + FailedFrames(fs) == FailedFrames(fs);
    FailedNone();
    for i := 0 to |fs|
      invariant matched == LastPid(done, code, matched0) && failed == LastFailed(done, failed0)
      invariant FailedFrames(fs) == done + FailedFrames(fs[i..])
    {
      var f := fs[i];
      FailedStep(fs, i);
      ghost var own := if f.failed then [f] else [];
      LastOne(done, f, code, matched0, failed0);
      if f.failed {
        failed := Some(f.pid);
        if TraceCode(f) == Some(code) { matched := Some(f.pid); }
      }
      LastPidConcat(done + own, FailedFrames(f.children), code, matched0);
      LastPidConcat(done + own, FailedFrames(f.children), code, failed0);
      matched, failed := Walk(f.children, code, matched, failed);
      Regroup(done, own, FailedFrames(f.children), FailedFrames(fs[i + 1..]));
      done := done + own + FailedFrames(f.children);
    }
    assert fs[|fs|..] == [] && done + [] == done;
  }

  lemma FailedNone()
    ensures FailedFrames([]) == []
  {
  }

  lemma FailedStep(fs: seq<Frame>, i: nat)
    requires i < |fs|
    ensures FailedFrames(fs[i..]) ==
            (if fs[i].failed then [fs[i]] else []) + FailedFrames(fs[i].children) + FailedFrames(fs[i + 1..])
  {
    assert fs[i..][0] == fs[i] && fs[i..][1..] == fs[i + 1..];
  }

  lemma Regroup<T>(a: seq<T>, b: seq<T>, c: seq<T>, d: seq<T>)
    ensures a + (b + c + d) == a + b + c + d
  {
  }

  lemma LastNone(code: nat, m: Option<string>, o: Option<string>)
    ensures LastPid([], code, m) == m && LastFailed([], o) == o
  {
  }

  /** One more frame at the end of the list, if it failed. */
  lemma LastOne(done: seq<Frame>, f: Frame, code: nat, m: Option<string>, o: Option<string>)
    ensures var all := done + if f.failed then [f] else [];
            && LastPid(all, code, m) ==
               (if f.failed && TraceCode(f) == Some(code) then Some(f.pid) else LastPid(done, code, m))
            && LastFailed(all, o) == if f.failed then Some(f.pid) else LastFailed(done, o)
  {
    hide TraceCode;
    if f.failed {
      LastPidConcat(done, [f], code, m);
      assert [TraceCode(f)][..0] == [] && Codes([f]) == [TraceCode(f)];
    } else {
      assert done + [] == done;
    }
  }

  /** `failing_program`. */
  method FailingProgram(fs: seq<Frame>, code: nat) returns (pid: Option<string>)
    ensures pid == Origin(fs, code)
  {
    var matched, failed := Walk(fs, code, None, None);
    pid := if matched.Some? then matched else failed;
  }

  /** The last failed frame with the code, else the last failed frame, else none. */
  function Origin(fs: seq<Frame>, code: nat): Option<string> {
    var failed := FailedFrames(fs);
    LastPid(failed, code, LastFailed(failed, None))
  }

  // ----- the renderer -------------------------------------------------------------------------

  function RendererCode(f: Frame): Option<nat> {
    if f.error.Some? && f.error.value != "" then CodeInRenderer(f.error.value, 0) else None
  }

  /** `_propagates_child_error`. */
  predicate Propagates(f: Frame, code: nat)
    decreases f
  {
    exists i :: 0 <= i < |f.children| && (RendererCode(f.children[i]) == Some(code) || Propagates(f.children[i], code))
  }

  /** `_decode_error` resolves `code` on this frame. */
  predicate Shows(f: Frame, code: nat) {
    RendererCode(f) == Some(code) && !Propagates(f, code)
  }

  // ----- one failing path ---------------------------------------------------------------------

  /** Failed frames form a single path from a top-level instruction downwards, and only failed
      frames carry an error text, as the runtime writes them. */
  ghost predicate Chain(fs: seq<Frame>)
    decreases fs, 0
  {
    || (forall i :: 0 <= i < |fs| ==> Quiet(fs[i]))
    || (exists k :: 0 <= k < |fs| && fs[k].failed && FrameText(fs[k]) && Chain(fs[k].children)
                    && forall i :: 0 <= i < |fs| && i != k ==> Quiet(fs[i]))
  }

  ghost predicate FrameText(f: Frame) {
    f.error.Some? ==> RuntimeText(f.error.value)
  }

  /** Nothing failed in here. */
  predicate Quiet(f: Frame)
    decreases f
  {
    !f.failed && f.error.None? && forall i :: 0 <= i < |f.children| ==> Quiet(f.children[i])
  }

  lemma {:induction false} QuietFrame(f: Frame, code: nat)
    requires Quiet(f)
    ensures FailedIn(f) == [] && !Propagates(f, code)
    decreases f
  {
    forall i | 0 <= i < |f.children| ensures FailedIn(f.children[i]) == [] && !Propagates(f.children[i], code) {
      QuietFrame(f.children[i], code);
    }
    NoneFailed(f.children);
  }

  lemma {:induction false} NoneFailed(fs: seq<Frame>)
    requires forall i :: 0 <= i < |fs| ==> FailedIn(fs[i]) == []
    ensures FailedFrames(fs) == []
  {
    if fs != [] { NoneFailed(fs[1..]); }
  }

  lemma {:induction false} OneFailed(fs: seq<Frame>, k: nat)
    requires k < |fs| && forall i :: 0 <= i < |fs| && i != k ==> FailedIn(fs[i]) == []
    ensures FailedFrames(fs) == FailedIn(fs[k])
  {
    if k == 0 {
      NoneFailed(fs[1..]);
    } else {
      OneFailed(fs[1..], k - 1);
    }
  }

  lemma CodesOf(f: Frame)
    requires FrameText(f)
    ensures RendererCode(f) == TraceCode(f)
  {
    if f.error.Some? {
      CodesAgree(f.error.value);
      if f.error.value == "" {
        assert !(MARK <= Trim("", Ws)) by { assert |MARK| > 0; }
      }
    }
  }

  /** Of the failed frames the renderer shows the code on the last that logged it, and a frame
      propagates the code exactly when one logged it. */
  ghost predicate ShownLast(fs: seq<Frame>, code: nat) {
    var failed := FailedFrames(fs);
    && (forall i :: 0 <= i < |failed| ==> (Shows(failed[i], code) <==> LastWith(failed, code) == Some(i)))
    && (LastWith(failed, code).Some? <==>
          exists i :: 0 <= i < |fs| && (RendererCode(fs[i]) == Some(code) || Propagates(fs[i], code)))
  }

  /** That is so for the frames of a failing path. */
  lemma {:induction false} ChainShows(fs: seq<Frame>, code: nat)
    requires Chain(fs)
    ensures ShownLast(fs, code)
    decreases fs, 0
  {
    hide ShownLast, FrameText;
    if forall i :: 0 <= i < |fs| ==> Quiet(fs[i]) {
      QuietShows(fs, code);
    } else {
      var k :| 0 <= k < |fs| && fs[k].failed && FrameText(fs[k]) && Chain(fs[k].children)
               && forall i :: 0 <= i < |fs| && i != k ==> Quiet(fs[i]);
      ChainShows(fs[k].children, code);
      FailedShows(fs, k, code);
    }
  }

  lemma QuietShows(fs: seq<Frame>, code: nat)
    requires forall i :: 0 <= i < |fs| ==> Quiet(fs[i])
    ensures ShownLast(fs, code)
  {
    hide TraceCode, RendererCode, Propagates, Quiet, FailedIn;
    forall i | 0 <= i < |fs| ensures FailedIn(fs[i]) == [] && !Propagates(fs[i], code) && RendererCode(fs[i]) == None {
      QuietFrame(fs[i], code);
      QuietCode(fs[i]);
    }
    NoneFailed(fs);
  }

  lemma FailedShows(fs: seq<Frame>, k: nat, code: nat)
    requires k < |fs| && fs[k].failed && FrameText(fs[k]) && ShownLast(fs[k].children, code)
    requires forall i :: 0 <= i < |fs| && i != k ==> Quiet(fs[i])
    ensures ShownLast(fs, code)
  {
    hide TraceCode, RendererCode, RuntimeText, LastWith, FailedIn, Quiet, FrameText, Shows;
    forall i | 0 <= i < |fs| && i != k
      ensures FailedIn(fs[i]) == [] && !Propagates(fs[i], code) && RendererCode(fs[i]) == None
    {
      QuietFrame(fs[i], code);
      QuietCode(fs[i]);
    }
    OneFailed(fs, k);
    CodesOf(fs[k]);
    PathShows(fs[k], code);
  }

  lemma QuietCode(f: Frame)
    requires Quiet(f)
    ensures RendererCode(f) == None
  {
  }

  /** The path below a failed frame, with that frame put in front. */
  lemma PathShows(f: Frame, code: nat)
    requires f.failed && RendererCode(f) == TraceCode(f)
    requires var below := FailedFrames(f.children);
             && (forall i :: 0 <= i < |below| ==> (Shows(below[i], code) <==> LastWith(below, code) == Some(i)))
             && (LastWith(below, code).Some? <==> Propagates(f, code))
    ensures var failed := FailedIn(f);
            && (forall i :: 0 <= i < |failed| ==> (Shows(failed[i], code) <==> LastWith(failed, code) == Some(i)))
            && (LastWith(failed, code).Some? <==> RendererCode(f) == Some(code) || Propagates(f, code))
  {
    hide TraceCode, RendererCode, Propagates, LastWith, FailedFrames;
    var below, failed := FailedFrames(f.children), FailedIn(f);
    assert failed == [f] + below;
    assert forall i :: 0 <= i < |below| ==> failed[i + 1] == below[i];
    LastCons(f, below, code);
    forall i | 0 <= i < |failed| ensures Shows(failed[i], code) <==> LastWith(failed, code) == Some(i) {
      if i > 0 { assert failed[i] == below[i - 1]; }
    }
  }

  lemma LastCons(f: Frame, below: seq<Frame>, code: nat)
    ensures LastWith([f] + below, code) ==
            if LastWith(below, code).Some? then Some(LastWith(below, code).value + 1)
            else if TraceCode(f) == Some(code) then Some(0) else None
  {
    hide TraceCode;
    assert Codes([f] + below) == [TraceCode(f)] + Codes(below);
    LastCodeConcat([TraceCode(f)], Codes(below), code);
    assert [TraceCode(f)][..0] == [];
  }

  /** All frames in execution order. */
  function AllFrames(fs: seq<Frame>): seq<Frame>
    decreases fs, 0
  {
    if fs == [] then [] else FramesIn(fs[0]) + AllFrames(fs[1..])
  }

  function FramesIn(f: Frame): seq<Frame>
    decreases f, 0
  {
    [f] + AllFrames(f.children)
  }

  lemma {:induction false} FrameWithin(fs: seq<Frame>, g: Frame)
    requires g in AllFrames(fs)
    ensures exists i :: 0 <= i < |fs| && g in FramesIn(fs[i])
  {
    if g in FramesIn(fs[0]) {
    } else {
      FrameWithin(fs[1..], g);
      var i :| 0 <= i < |fs[1..]| && g in FramesIn(fs[1..][i]);
      assert fs[1..][i] == fs[i + 1];
    }
  }

  lemma {:induction false} QuietWithin(f: Frame, g: Frame)
    requires Quiet(f) && g in FramesIn(f)
    ensures g.error.None?
    decreases f
  {
    if g != f {
      FrameWithin(f.children, g);
      var i :| 0 <= i < |f.children| && g in FramesIn(f.children[i]);
      QuietWithin(f.children[i], g);
    }
  }

  /** Off the failing path no frame has an error text. */
  lemma {:induction false} ChainSilent(fs: seq<Frame>, g: Frame)
    requires Chain(fs) && g in AllFrames(fs) && !g.failed
    ensures g.error.None?
    decreases fs, 0
  {
    FrameWithin(fs, g);
    var i :| 0 <= i < |fs| && g in FramesIn(fs[i]);
    if Quiet(fs[i]) {
      QuietWithin(fs[i], g);
    } else {
      ChainSilent(fs[i].children, g);
    }
  }

  /** The search names the program of one frame that logged the code, and the renderer resolves the
      code on that frame and no other in the tree; if no frame logged it, the deepest failed frame is
      named and the code is shown nowhere. */
  ghost predicate ShownAtOrigin(fs: seq<Frame>, code: nat) {
    var failed := FailedFrames(fs);
    && (forall g :: g in AllFrames(fs) && Shows(g, code) ==> g.failed)
    && if exists i :: 0 <= i < |failed| && TraceCode(failed[i]) == Some(code) then
      exists i :: 0 <= i < |failed| && Origin(fs, code) == Some(failed[i].pid)
                  && forall j :: 0 <= j < |failed| ==> (Shows(failed[j], code) <==> j == i)
    else
      Origin(fs, code) == LastFailed(failed, None) && forall j :: 0 <= j < |failed| ==> !Shows(failed[j], code)
  }

  /** When a transaction failed along one path, the renderer shows the code where the search finds
      its origin. */
  lemma OriginIsShown(fs: seq<Frame>, code: nat)
    requires Chain(fs)
    ensures ShownAtOrigin(fs, code)
  {
    hide ShownLast, FailedFrames, AllFrames, Shows, TraceCode, Chain, Origin, LastFailed;
    ChainShows(fs, code);
    forall g | g in AllFrames(fs) && Shows(g, code) ensures g.failed { OnlyFailedShow(fs, g, code); }
    FailedFramesShow(fs, code);
  }

  lemma OnlyFailedShow(fs: seq<Frame>, g: Frame, code: nat)
    requires Chain(fs) && g in AllFrames(fs) && Shows(g, code)
    ensures g.failed
  {
    hide Chain, AllFrames, Propagates, CodeInRenderer;
    if !g.failed { ChainSilent(fs, g); }
  }

  lemma FailedFramesShow(fs: seq<Frame>, code: nat)
    requires ShownLast(fs, code)
    ensures var failed := FailedFrames(fs);
            if exists i :: 0 <= i < |failed| && TraceCode(failed[i]) == Some(code) then
              exists i :: 0 <= i < |failed| && Origin(fs, code) == Some(failed[i].pid)
                          && forall j :: 0 <= j < |failed| ==> (Shows(failed[j], code) <==> j == i)
            else
              Origin(fs, code) == LastFailed(failed, None) && forall j :: 0 <= j < |failed| ==> !Shows(failed[j], code)
  {
    hide TraceCode, Propagates, RendererCode, FailedFrames, Shows, LastCode, LastFailed;
    var failed := FailedFrames(fs);
    var last := LastWith(failed, code);
    if last.Some? {
      assert TraceCode(failed[last.value]) == Some(code);
      assert Origin(fs, code) == Some(failed[last.value].pid);
      assert forall j :: 0 <= j < |failed| ==> (Shows(failed[j], code) <==> j == last.value);
    } else {
      assert forall j :: 0 <= j < |failed| ==> Codes(failed)[j] == TraceCode(failed[j]);
    }
  }
}
