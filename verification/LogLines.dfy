/** The runtime's log lines: how they are written and how the trace builder reads them. */
module LogLines {
  import opened Wrappers
  import opened Bytes
  import opened Text

  /** `char::is_whitespace`. */
  predicate Ws(c: char) {
    c == ' ' || '\U{9}' <= c <= '\U{d}' || c == '\U{85}' || c == '\U{a0}' || c == '\U{1680}'
    || '\U{2000}' <= c <= '\U{200a}' || c == '\U{2028}' || c == '\U{2029}' || c == '\U{202f}'
    || c == '\U{205f}' || c == '\U{3000}'
  }

  // ----- reading ------------------------------------------------------------------------------

  /** What one line is to the trace builder. */
  datatype Line =
    | Skip
    | ReturnLine(data: Option<seq<Byte>>)
    | DataLine(data: Option<seq<Byte>>)
    | InvokeLine(pid: string)
    | ConsumedLine(units: Option<nat>)
    | SuccessLine
    | FailedLine(error: Option<string>)
    | TextLine(msg: string)

  const VERBS: set<string> := {"invoke", "consumed", "success", "failed:"}

  /** `marker_verb`: the second and third word, if the third is a verb. The second word is not
      looked at. */
  function MarkerVerb(l: string): Option<(string, string)> {
    var toks := Tokens(l, Ws);
    if !("Program " <= l) || |toks| < 3 || toks[2] !in VERBS then None else Some((toks[1], toks[2]))
  }

  const U64_MAX: nat := 0xFFFF_FFFF_FFFF_FFFF

  /** `str::parse::<u64>`. */
  function ParseU64(s: string): Option<nat> {
    var digits := if s != "" && s[0] == '+' then s[1..] else s;
    var n := Number(digits);
    if n.Some? && n.value <= U64_MAX then n else None
  }

  /** The decimal of a number, with a plus sign or without, is read back if it is one of 64 bits. */
  lemma UnitsIff(n: nat)
    ensures ParseU64(Decimal(n)) == ParseU64("+" + Decimal(n)) == if n < 0x1_0000_0000_0000_0000 then Some(n) else None
  {
    hide Number, Decimal;
    NumberDecimal(n);
    assert Decimal(n)[0] != '+' && ("+" + Decimal(n))[1..] == Decimal(n);
  }

  function ParseConsumed(toks: seq<string>): Option<nat> {
    if toks == [] then None
    else if toks[0] == "consumed" then (if |toks| > 1 then ParseU64(toks[1]) else None)
    else ParseConsumed(toks[1..])
  }

  /** `split_once(pat)`: what follows the first occurrence. */
  function After(s: string, pat: string): Option<string> {
    var i := Find(s, pat, 0);
    if i.Some? then Some(s[i.value + |pat|..]) else None
  }

  /** One turn of the loop in `attach_logs`, up to where the line goes. `decode` is base64. */
  function Classify(raw: string, decode: string -> Option<seq<Byte>>): Line {
    var l := Trim(raw, Ws);
    if l == "" then Skip
    else if "Program return: " <= l then
      var b64 := After(l[|"Program return: "|..], " ");
      ReturnLine(if b64.Some? then decode(Trim(b64.value, Ws)) else None)
    else if "Program data: " <= l then
      var chunks := Tokens(l[|"Program data: "|..], Ws);
      DataLine(decode(if chunks == [] then "" else chunks[0]))
    else
      match MarkerVerb(l)
      case Some((pid, verb)) =>
        if verb == "invoke" then InvokeLine(pid)
        else if verb == "consumed" then ConsumedLine(ParseConsumed(Tokens(l, Ws)))
        else if verb == "success" then SuccessLine
        else
          var msg := After(l, "failed: ");
          FailedLine(if msg.Some? then Some(Trim(msg.value, Ws)) else None)
      case None => TextLine(if "Program log: " <= l then l[|"Program log: "|..] else l)
  }

  /** Blank lines are passed over, and no others. A line that does not open with `Program` is text. */
  lemma OtherLines(raw: string, decode: string -> Option<seq<Byte>>)
    ensures Classify(raw, decode) == Skip <==> Blank(raw, Ws)
    ensures !Blank(raw, Ws) && !("Program " <= Trim(raw, Ws)) ==> Classify(raw, decode) == TextLine(Trim(raw, Ws))
  {
    hide Tokens, ParseConsumed, After;
    TrimBlank(raw);
    var l := Trim(raw, Ws);
    assert "Program return: "[..8] == "Program " && "Program data: "[..8] == "Program " && "Program log: "[..8] == "Program ";
    if "Program return: " <= l { assert l[..8] == "Program return: "[..8]; }
    if "Program data: " <= l { assert l[..8] == "Program data: "[..8]; }
    if "Program log: " <= l { assert l[..8] == "Program log: "[..8]; }
  }

  lemma TrimBlank(s: string)
    ensures Trim(s, Ws) == "" <==> Blank(s, Ws)
  {
    if TrimStart(s, Ws) != "" {
      assert !Blank(TrimStart(s, Ws), Ws);
    }
  }

  // ----- writing ------------------------------------------------------------------------------

  /** What an invocation makes the runtime log. */
  datatype Event =
    | Invoke(depth: nat)
    | Log(msg: string)
    | Data(chunks: seq<seq<Byte>>)
    | Return(data: seq<Byte>)
    | Units(used: nat, budget: nat)
    | Succeed
    | Fail(msg: string)

  /** Encoded chunks with a space between them. */
  function Payload(chunks: seq<seq<Byte>>, encode: seq<Byte> -> string): string {
    if chunks == [] then ""
    else if |chunks| == 1 then encode(chunks[0])
    else encode(chunks[0]) + " " + Payload(chunks[1..], encode)
  }

  /** The line the runtime writes for an event of program `pid`. */
  function Print(pid: string, e: Event, encode: seq<Byte> -> string): string {
    match e
    case Invoke(depth) => "Program " + (pid + " " + ("invoke" + " " + ("[" + Decimal(depth) + "]")))
    case Log(msg) => "Program log: " + msg
    case Data(chunks) => "Program data: " + Payload(chunks, encode)
    case Return(data) => "Program return: " + (pid + " " + encode(data))
    case Units(used, budget) =>
      "Program " + (pid + " " + ("consumed" + " " + (Decimal(used) + " " + ("of " + Decimal(budget) + " compute units"))))
    case Succeed => "Program " + (pid + " " + "success")
    case Fail(msg) => "Program " + (pid + " " + ("failed: " + msg))
  }

  /** A base58 program id: long enough, no whitespace, no colon. */
  predicate ProgramId(pid: string) {
    |pid| >= 32 && Word(pid, Ws) && forall i :: 0 <= i < |pid| ==> pid[i] != ':'
  }

  /** The two directions of base64 (section 4 of RFC 4648), as far as they matter here. */
  ghost predicate Base64(encode: seq<Byte> -> string, decode: string -> Option<seq<Byte>>) {
    forall b: seq<Byte> :: decode(encode(b)) == Some(b) && (if b == [] then encode(b) == "" else Word(encode(b), Ws))
  }

  /** The first word of a message, or nothing. */
  function FirstWord(msg: string): string {
    var toks := Tokens(msg, Ws);
    if toks == [] then "" else toks[0]
  }

  /** What is expected of an event for its line to be readable: no message opens with a verb. */
  predicate Readable(e: Event) {
    match e
    case Log(msg) => FirstWord(msg) !in VERBS
    case Units(used, _) => used <= U64_MAX
    case _ => true
  }

  /** The first chunk that is not empty. */
  function FirstChunk(chunks: seq<seq<Byte>>): Option<seq<Byte>> {
    if chunks == [] then None else if chunks[0] != [] then Some(chunks[0]) else FirstChunk(chunks[1..])
  }

  /** What the reader makes of an event. Empty chunks leave no trace in a data line, and a data line
      without any other chunk is text. */
  function Meaning(pid: string, e: Event): Line {
    match e
    case Invoke(_) => InvokeLine(pid)
    case Log(msg) => TextLine(if Blank(msg, Ws) then "Program log:" else TrimEnd(msg, Ws))
    case Data(chunks) =>
      var first := FirstChunk(chunks);
      if first.Some? then DataLine(first) else TextLine("Program data:")
    case Return(data) => ReturnLine(if data == [] then None else Some(data))
    case Units(used, _) => ConsumedLine(Some(used))
    case Succeed => SuccessLine
    case Fail(msg) => FailedLine(if Blank(msg, Ws) then None else Some(Trim(msg, Ws)))
  }

  // ----- reading what was written -------------------------------------------------------------

  /** Nothing is trimmed in front of a visible character, nor behind one. */
  lemma TrimHead(a: string, rest: string)
    requires a != "" && !Ws(a[0]) && !Blank(rest, Ws)
    ensures Trim(a + rest, Ws) == a + TrimEnd(rest, Ws)
  {
    var l := a + rest;
    assert l[0] == a[0];
    assert TrimStart(l, Ws) == l;
    hide TrimEnd;
    TrimEndAppend(a, rest, Ws);
  }

  lemma ProgramTokens(rest: string)
    ensures Tokens("Program " + rest, Ws) == ["Program"] + Tokens(rest, Ws)
  {
    TokensCons("Program", ' ', rest, Ws);
    assert "Program" + [' '] + rest == "Program " + rest;
  }

  lemma PidTokens(pid: string, rest: string)
    requires ProgramId(pid)
    ensures Tokens(pid + " " + rest, Ws) == [pid] + Tokens(rest, Ws)
  {
    TokensCons(pid, ' ', rest, Ws);
    assert pid + [' '] + rest == pid + " " + rest;
  }

  /** A line about a program: trimmed only at the end, neither a return nor a data line, and its
      words are `Program`, the id, and the words of the rest. */
  lemma AboutProgram(pid: string, x: string)
    requires ProgramId(pid) && !Blank(x, Ws)
    ensures var l := Trim("Program " + (pid + " " + x), Ws);
            && l == "Program " + (pid + " " + TrimEnd(x, Ws))
            && Tokens(l, Ws) == ["Program", pid] + Tokens(x, Ws)
            && !("Program return: " <= l) && !("Program data: " <= l)
  {
    hide Tokens, TrimEnd, Trim;
    var rest := pid + " " + x;
    TrimEndAppend(pid + " ", x, Ws);
    assert rest[0] == pid[0];
    TrimHead("Program ", rest);
    ProgramTokens(TrimEnd(rest, Ws));
    TokensTrimEnd(rest, Ws);
    PidTokens(pid, x);
    NotReturnOrData(pid, " " + TrimEnd(x, Ws));
    assert pid + (" " + TrimEnd(x, Ws)) == pid + " " + TrimEnd(x, Ws);
  }

  lemma NotReturnOrData(pid: string, rest: string)
    requires ProgramId(pid)
    ensures !("Program return: " <= "Program " + (pid + rest)) && !("Program data: " <= "Program " + (pid + rest))
  {
    var l := "Program " + (pid + rest);
    assert l[14] == pid[6] && l[12] == pid[4];
    assert "Program return: "[14] == ':' && "Program data: "[12] == ':';
  }

  lemma VerbTokens(verb: string, rest: string)
    requires Word(verb, Ws)
    ensures Tokens(verb + " " + rest, Ws) == [verb] + Tokens(rest, Ws)
    ensures Tokens(verb, Ws) == [verb]
    ensures !Blank(verb, Ws) && !Blank(verb + " " + rest, Ws)
  {
    TokensCons(verb, ' ', rest, Ws);
    assert verb + [' '] + rest == verb + " " + rest;
    TokensWord(verb, Ws);
    assert verb[0] == (verb + " " + rest)[0];
  }

  lemma VerbsAreWords()
    ensures Word("invoke", Ws) && Word("consumed", Ws) && Word("success", Ws) && Word("failed:", Ws)
  {
    assert forall i :: 0 <= i < 6 ==> 'a' <= "invoke"[i] <= 'z';
    assert forall i :: 0 <= i < 8 ==> 'a' <= "consumed"[i] <= 'z';
    assert forall i :: 0 <= i < 7 ==> 'a' <= "success"[i] <= 'z';
    assert forall i :: 0 <= i < 7 ==> ':' <= "failed:"[i] <= 'z';
  }

  /** The verb of a line about a program is the first word behind the id. */
  lemma VerbOf(pid: string, verb: string, x: string)
    requires ProgramId(pid) && verb in VERBS && !Blank(x, Ws)
    requires |Tokens(x, Ws)| > 0 && Tokens(x, Ws)[0] == verb
    ensures MarkerVerb(Trim("Program " + (pid + " " + x), Ws)) == Some((pid, verb))
  {
    hide Tokens, TrimEnd, TrimStart, Trim;
    AboutProgram(pid, x);
  }

  lemma InvokeRead(pid: string, depth: nat, decode: string -> Option<seq<Byte>>, encode: seq<Byte> -> string)
    requires ProgramId(pid)
    ensures Classify(Print(pid, Invoke(depth), encode), decode) == InvokeLine(pid)
  {
    hide Tokens, TrimEnd, TrimStart, Trim;
    var rest := "[" + Decimal(depth) + "]";
    var x := "invoke" + " " + rest;
    VerbsAreWords();
    VerbTokens("invoke", rest);
    AboutProgram(pid, x);
    VerbOf(pid, "invoke", x);
  }

  lemma SucceedRead(pid: string, decode: string -> Option<seq<Byte>>, encode: seq<Byte> -> string)
    requires ProgramId(pid)
    ensures Classify(Print(pid, Succeed, encode), decode) == SuccessLine
  {
    hide Tokens, TrimEnd, TrimStart, Trim;
    VerbsAreWords();
    VerbTokens("success", "");
    AboutProgram(pid, "success");
    VerbOf(pid, "success", "success");
  }

  lemma UnitsRead(pid: string, used: nat, budget: nat, decode: string -> Option<seq<Byte>>, encode: seq<Byte> -> string)
    requires ProgramId(pid) && used <= U64_MAX
    ensures Classify(Print(pid, Units(used, budget), encode), decode) == ConsumedLine(Some(used))
  {
    hide Tokens, TrimEnd, TrimStart, Trim, Decimal, ParseConsumed, Ws;
    var more := "of " + Decimal(budget) + " compute units";
    var rest := Decimal(used) + " " + more;
    var x := "consumed" + " " + rest;
    VerbsAreWords();
    VerbTokens("consumed", rest);
    DecimalWord(used);
    VerbTokens(Decimal(used), more);
    AboutProgram(pid, x);
    VerbOf(pid, "consumed", x);
    DecimalUnsigned(used);
    ConsumedTokens(pid, Decimal(used), Tokens(more, Ws));
  }

  lemma DecimalWord(n: nat)
    ensures Word(Decimal(n), Ws)
  {
  }

  lemma DecimalUnsigned(n: nat)
    requires n <= U64_MAX
    ensures ParseU64(Decimal(n)) == Some(n)
  {
    NumberDecimal(n);
  }

  lemma ConsumedTokens(pid: string, n: string, more: seq<string>)
    requires ProgramId(pid)
    ensures ParseConsumed(["Program", pid] + (["consumed"] + ([n] + more))) == ParseU64(n)
  {
    var toks := ["Program", pid] + (["consumed"] + ([n] + more));
    assert toks[1..][1..] == ["consumed"] + ([n] + more);
    assert toks[0] == "Program" && toks[1..][0] == pid;
    assert "Program"[0] == 'P' && "consumed"[0] == 'c' && |"consumed"| == 8;
    assert ParseConsumed(toks) == ParseConsumed(toks[1..]) == ParseConsumed(toks[1..][1..]);
  }

  lemma FailRead(pid: string, msg: string, decode: string -> Option<seq<Byte>>, encode: seq<Byte> -> string)
    requires ProgramId(pid)
    ensures Classify(Print(pid, Fail(msg), encode), decode) == Meaning(pid, Fail(msg))
  {
    hide Classify, MarkerVerb, Tokens, TrimEnd, TrimStart, Trim, Find, After, Blank, ProgramId;
    var x := "failed:" + " " + msg;
    assert x == "failed: " + msg;
    VerbsAreWords();
    VerbTokens("failed:", msg);
    AboutProgram(pid, x);
    VerbOf(pid, "failed:", x);
    ClassifyFailed("Program " + (pid + " " + x), pid, decode);
    FailedEnd(msg);
    if Blank(msg, Ws) {
      NoFailed(pid);
    } else {
      FindFailed(pid, TrimEnd(msg, Ws));
      TrimTwice(msg);
    }
  }

  lemma ClassifyFailed(raw: string, pid: string, decode: string -> Option<seq<Byte>>)
    requires var l := Trim(raw, Ws);
             l != "" && !("Program return: " <= l) && !("Program data: " <= l) && MarkerVerb(l) == Some((pid, "failed:"))
    ensures var msg := After(Trim(raw, Ws), "failed: ");
            Classify(raw, decode) == FailedLine(if msg.Some? then Some(Trim(msg.value, Ws)) else None)
  {
    hide MarkerVerb, Tokens, Trim, After, ParseConsumed;
    assert "failed:"[0] == 'f' && "invoke"[0] == 'i' && "consumed"[0] == 'c' && "success"[0] == 's';
  }

  lemma FailedEnd(msg: string)
    ensures TrimEnd("failed:" + " " + msg, Ws) == if Blank(msg, Ws) then "failed:" else "failed:" + (" " + TrimEnd(msg, Ws))
  {
    assert TrimEnd("failed:", Ws) == "failed:" by { assert "failed:"[6] == ':'; }
    hide TrimEnd;
    assert "failed:" + " " + msg == "failed:" + (" " + msg);
    TrimEndAppend("failed:", " " + msg, Ws);
    TrimEndAppend(" ", msg, Ws);
    assert !Blank(msg, Ws) ==> !Blank(" " + msg, Ws) by { assert (" " + msg)[1..] == msg; }
  }

  /** The first `failed: ` of a failure line is the verb's. */
  lemma FindFailed(pid: string, m: string)
    requires ProgramId(pid)
    ensures After("Program " + (pid + " " + ("failed:" + (" " + m))), "failed: ") == Some(m)
  {
    hide ProgramId;
    var l := "Program " + (pid + " " + ("failed:" + (" " + m)));
    var k := 8 + |pid| + 1;
    var head := "Program " + pid + " ";
    assert l == head + "failed:" + (" " + m) && l == head + "failed: " + m && |head| == k;
    assert l[..k] == head && l[k..k + 7] == "failed:" && l[k..k + 8] == "failed: ";
    assert At(l, "failed: ", k);
    forall j | 0 <= j < k ensures !At(l, "failed: ", j) { NoColonBefore(l, pid, j, k); }
    assert l[k + 8..] == m;
  }

  lemma NoColonBefore(l: string, pid: string, j: nat, k: nat)
    requires ProgramId(pid) && k == 8 + |pid| + 1 && k + 7 <= |l|
    requires l[..k] == "Program " + pid + " " && l[k..k + 7] == "failed:"
    requires j < k
    ensures !At(l, "failed: ", j)
  {
    if j + 8 <= |l| {
      assert "failed: "[6] == ':' && l[j..j + 8][6] == l[j + 6];
      if j + 6 < k {
        PrefixNoColon(pid, j + 6);
        assert l[j + 6] == l[..k][j + 6];
      } else {
        assert l[j + 6] == l[k..k + 7][j + 6 - k];
        assert l[j + 6] == "failed:"[j + 6 - k] && j + 6 - k < 6;
      }
    }
  }

  lemma PrefixNoColon(pid: string, i: nat)
    requires ProgramId(pid) && i < 8 + |pid| + 1
    ensures ("Program " + pid + " ")[i] != ':'
  {
  }

  lemma NoFailed(pid: string)
    requires ProgramId(pid)
    ensures After("Program " + (pid + " " + "failed:"), "failed: ") == None
  {
    var l := "Program " + (pid + " " + "failed:");
    var k := 8 + |pid| + 1;
    assert l[..k] == "Program " + pid + " " && l[k..k + 7] == "failed:";
    forall j | 0 <= j <= |l| ensures !At(l, "failed: ", j) {
      if j < k { NoColonBefore(l, pid, j, k); }
    }
  }

  lemma TrimTwice(msg: string)
    ensures Trim(TrimEnd(msg, Ws), Ws) == Trim(msg, Ws)
    decreases |msg|
  {
    if msg != "" && Ws(msg[0]) {
      TrimEndAppend([msg[0]], msg[1..], Ws);
      assert [msg[0]] + msg[1..] == msg;
      if !Blank(msg[1..], Ws) {
        assert TrimEnd(msg, Ws)[1..] == TrimEnd(msg[1..], Ws);
        TrimTwice(msg[1..]);
      }
    } else if msg != "" {
      assert TrimEnd(msg, Ws)[0] == msg[0];
    }
  }

  lemma ReturnRead(pid: string, data: seq<Byte>, decode: string -> Option<seq<Byte>>, encode: seq<Byte> -> string)
    requires ProgramId(pid) && Base64(encode, decode)
    ensures Classify(Print(pid, Return(data), encode), decode) == Meaning(pid, Return(data))
  {
    hide Tokens, TrimEnd, TrimStart, Trim, Find;
    var b64 := encode(data);
    var rest := pid + " " + b64;
    assert rest[0] == pid[0];
    TrimHead("Program return: ", rest);
    ReturnEnd(pid, b64);
    DropReturn(TrimEnd(rest, Ws));
    if data == [] {
      NoSpace(pid);
    } else {
      FirstSpace(pid, b64);
      TrimWord(b64);
    }
  }

  lemma DropReturn(rest: string)
    requires rest != ""
    ensures "Program return: " + rest != "" && "Program return: " <= "Program return: " + rest
    ensures ("Program return: " + rest)[|"Program return: "|..] == rest
  {
  }

  lemma TrimWord(w: string)
    requires Word(w, Ws)
    ensures TrimEnd(w, Ws) == w && Trim(w, Ws) == w
  {
  }

  lemma ReturnEnd(pid: string, b64: string)
    requires ProgramId(pid) && (b64 == "" || Word(b64, Ws))
    ensures TrimEnd(pid + " " + b64, Ws) == if b64 == "" then pid else pid + " " + b64
  {
    TrimWord(pid);
    assert pid + " " + b64 == pid + (" " + b64);
    if b64 != "" { TrimWord(b64); }
    hide TrimEnd;
    TrimEndAppend(pid, " " + b64, Ws);
    TrimEndAppend(" ", b64, Ws);
    assert b64 != "" ==> !Blank(" " + b64, Ws) by { assert (" " + b64)[1..] == b64; }
  }

  lemma NoSpace(pid: string)
    requires ProgramId(pid)
    ensures After(pid, " ") == None
  {
    forall j | 0 <= j <= |pid| ensures !At(pid, " ", j) {
      if j < |pid| { assert pid[j..j + 1][0] == pid[j]; }
    }
  }

  lemma FirstSpace(pid: string, rest: string)
    requires ProgramId(pid)
    ensures After(pid + " " + rest, " ") == Some(rest)
  {
    var l := pid + " " + rest;
    assert l[|pid|..|pid| + 1] == " " && At(l, " ", |pid|);
    forall j | 0 <= j < |pid| ensures !At(l, " ", j) { assert l[j..j + 1][0] == pid[j]; }
    assert l[|pid| + 1..] == rest;
  }

  /** The first word of a payload is its first chunk that is not empty. */
  lemma {:induction false} PayloadWords(chunks: seq<seq<Byte>>, decode: string -> Option<seq<Byte>>, encode: seq<Byte> -> string)
    requires Base64(encode, decode)
    ensures var first, toks := FirstChunk(chunks), Tokens(Payload(chunks, encode), Ws);
            if first.None? then Blank(Payload(chunks, encode), Ws)
            else !Blank(Payload(chunks, encode), Ws) && toks != [] && toks[0] == encode(first.value) && first.value != []
  {
    hide Tokens, Ws;
    if chunks != [] {
      var w, rest := encode(chunks[0]), Payload(chunks[1..], encode);
      if |chunks| > 1 { PayloadWords(chunks[1..], decode, encode); }
      if chunks[0] != [] {
        assert |chunks| > 1 ==> w + [' '] + rest == w + " " + rest;
        FirstOf(w, rest);
      } else {
        assert |chunks| > 1 ==> w + " " + rest == " " + rest;
        BehindSpace(rest);
        NoChunk();
        assert |chunks| == 1 ==> chunks[1..] == [];
      }
    }
  }

  lemma NoChunk()
    ensures Blank("", Ws) && FirstChunk([]) == None
  {
  }

  lemma FirstOf(w: string, rest: string)
    requires Word(w, Ws)
    ensures Tokens(w, Ws) == [w] && Tokens(w + [' '] + rest, Ws) == [w] + Tokens(rest, Ws)
    ensures !Blank(w, Ws) && !Blank(w + [' '] + rest, Ws)
  {
    TokensWord(w, Ws);
    TokensCons(w, ' ', rest, Ws);
    assert (w + [' '] + rest)[0] == w[0];
  }

  lemma BehindSpace(rest: string)
    ensures Tokens(" " + rest, Ws) == Tokens(rest, Ws)
    ensures Blank(" " + rest, Ws) <==> Blank(rest, Ws)
  {
    var s := " " + rest;
    assert s[1..] == rest;
    assert forall i :: 0 <= i < |rest| ==> s[i + 1] == rest[i];
  }

  lemma DataRead(pid: string, chunks: seq<seq<Byte>>, decode: string -> Option<seq<Byte>>, encode: seq<Byte> -> string)
    requires Base64(encode, decode)
    ensures Classify(Print(pid, Data(chunks), encode), decode) == Meaning(pid, Data(chunks))
  {
    hide Tokens, TrimEnd, TrimStart, Trim, Payload;
    var rest := Payload(chunks, encode);
    PayloadWords(chunks, decode, encode);
    if FirstChunk(chunks).Some? {
      TrimHead("Program data: ", rest);
      var l := Trim("Program data: " + rest, Ws);
      assert l[14..] == TrimEnd(rest, Ws);
      assert l[8] == 'd' && "Program return: "[8] == 'r';
      TokensTrimEnd(rest, Ws);
    } else {
      BareData(rest);
      var l := Trim("Program data: " + rest, Ws);
      assert l[8] == 'd' && "Program return: "[8] == 'r' && "Program log: "[8] == 'l' && |l| == 13;
    }
  }

  /** A data line with nothing but blanks. */
  lemma BareData(rest: string)
    requires Blank(rest, Ws)
    ensures var l := Trim("Program data: " + rest, Ws); l == "Program data:" && |Tokens(l, Ws)| == 2
  {
    DataWord();
    hide Tokens, TrimEnd, TrimStart, Trim;
    var word := "data:";
    assert "Program data: " + rest == "Program " + ("data: " + rest);
    TrimEndAppend("data: ", rest, Ws);
    assert ("data: " + rest)[0] == 'd';
    TrimHead("Program ", "data: " + rest);
    assert "Program " + word == "Program data:";
    ProgramTokens(word);
    TokensWord(word, Ws);
  }

  lemma DataWord()
    ensures Word("data:", Ws) && TrimEnd("data: ", Ws) == "data:"
  {
    var w := "data:";
    assert w[0] == 'd' && w[1] == 'a' && w[2] == 't' && w[3] == 'a' && w[4] == ':';
    assert "data: "[5] == ' ' && "data: "[..5] == "data:";
  }

  /** The line of a message: its words are `Program`, `log:` and the words of the message. */
  lemma LogLine(msg: string)
    ensures var l := Trim("Program log: " + msg, Ws);
            && l == (if Blank(msg, Ws) then "Program log:" else "Program log: " + TrimEnd(msg, Ws))
            && Tokens(l, Ws) == ["Program", "log:"] + Tokens(msg, Ws)
  {
    hide Tokens, TrimEnd, TrimStart, Trim, Blank, Word;
    var rest := "log: " + msg;
    LogRest(msg);
    LogParts(msg);
    LogParts(TrimEnd(msg, Ws));
    TrimHead("Program ", rest);
    ProgramTokens(TrimEnd(rest, Ws));
    assert ["Program"] + (["log:"] + Tokens(msg, Ws)) == ["Program", "log:"] + Tokens(msg, Ws);
  }

  lemma LogRest(msg: string)
    ensures var rest := "log: " + msg;
            && !Blank(rest, Ws)
            && TrimEnd(rest, Ws) == (if Blank(msg, Ws) then "log:" else "log: " + TrimEnd(msg, Ws))
            && Tokens(TrimEnd(rest, Ws), Ws) == ["log:"] + Tokens(msg, Ws)
  {
    hide Tokens, TrimEnd, Blank, Word;
    LogWord();
    LogParts(msg);
    VerbTokens("log:", msg);
    TrimEndAppend("log: ", msg, Ws);
    TokensTrimEnd("log: " + msg, Ws);
  }

  lemma LogParts(msg: string)
    ensures "Program log: " + msg == "Program " + ("log: " + msg) && "log: " + msg == "log:" + " " + msg
    ensures "Program " + "log:" == "Program log:"
  {
  }

  lemma LogWord()
    ensures Word("log:", Ws) && TrimEnd("log: ", Ws) == "log:"
  {
    assert "log:"[0] == 'l' && "log:"[1] == 'o' && "log:"[2] == 'g' && "log:"[3] == ':';
    assert "log: "[4] == ' ' && "log: "[..4] == "log:";
  }

  /** A program's message is attributed as text exactly when it does not open with a marker verb:
      `msg!("success")` closes the frame. */
  lemma LogReadIff(msg: string, decode: string -> Option<seq<Byte>>)
    ensures Classify("Program log: " + msg, decode).TextLine? <==> FirstWord(msg) !in VERBS
    ensures FirstWord(msg) !in VERBS ==> Classify("Program log: " + msg, decode) == Meaning("", Log(msg))
  {
    hide Tokens, TrimEnd, TrimStart, Trim;
    var l := Trim("Program log: " + msg, Ws);
    LogLine(msg);
    assert l[8] == 'l' && "Program return: "[8] == 'r' && "Program data: "[8] == 'd';
    var toks := Tokens(l, Ws);
    assert |toks| == 2 + |Tokens(msg, Ws)|;
    if |toks| > 2 { assert toks[2] == FirstWord(msg); }
    if Blank(msg, Ws) { TokensBlank(msg, Ws); }
    assert "" !in VERBS;
    assert |"Program log:"| == 12;
  }

  /** Every readable event is read as what it is. */
  lemma EventRead(pid: string, e: Event, decode: string -> Option<seq<Byte>>, encode: seq<Byte> -> string)
    requires ProgramId(pid) && Readable(e) && Base64(encode, decode)
    ensures Classify(Print(pid, e, encode), decode) == Meaning(pid, e)
  {
    match e
    case Invoke(depth) => InvokeRead(pid, depth, decode, encode);
    case Log(msg) => LogReadIff(msg, decode);
    case Data(chunks) => DataRead(pid, chunks, decode, encode);
    case Return(data) => ReturnRead(pid, data, decode, encode);
    case Units(used, budget) => UnitsRead(pid, used, budget, decode, encode);
    case Succeed => SucceedRead(pid, decode, encode);
    case Fail(msg) => FailRead(pid, msg, decode, encode);
  }
}
