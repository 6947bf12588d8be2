/** The other ends of the message format: build_header in ipc.c, agentfs_send and parse_framed_in_buf in
    common.c, _build_frame and _parse_frame in sdk/python/agent.py. */
module Codecs {
  import opened AgentNames
  import opened Options
  import opened Text
  import opened Wire

  const MAX_VERB := 64
  const MAX_PAYLOAD := 0x10_0000

  // ----- encoders -------------------------------------------------------

  lemma {:induction false} GlueSnoc(lines: seq<string>, line: string)
    ensures Glue(lines + [line]) == (if lines == [] then line else Glue(lines) + "\n" + line)
  {
    if |lines| == 1 {
      assert (lines + [line])[1..] == [line];
    } else if |lines| > 1 {
      assert (lines + [line])[1..] == lines[1..] + [line];
      GlueSnoc(lines[1..], line);
      assert lines[0] + "\n" + (Glue(lines[1..]) + "\n" + line) == lines[0] + "\n" + Glue(lines[1..]) + "\n" + line;
    }
  }

  /** snprintf of one more line at the end of a buffer of `cap` bytes that holds `out`, the lines so far. */
  method AppendLine(out: string, cap: nat, line: string, ghost lines: seq<string>, ghost all: seq<string>)
    returns (r: Option<string>)
    requires out == (if lines == [] then "" else Glue(lines) + "\n") && lines + [line] <= all
    ensures r.None? ==> |Glue(all)| + 2 >= cap
    ensures r.Some? ==> r.value == Glue(lines + [line]) + "\n"
  {
    GlueSnoc(lines, line);
    GluePrefix(all, |lines| + 1);
    assert all[..|lines| + 1] == lines + [line];
    assert Glue(lines + [line]) + "\n" == out + (line + "\n");
    if |line + "\n"| >= cap - |out| { return None; }
    return Some(out + (line + "\n"));
  }

  /** The header lines, each appended with its newline if it is present, then the empty line. */
  method BuildHeader(m: Message, withLen: bool, cap: nat) returns (r: Option<string>)
    ensures r == if m.verb == [] || HeaderSize(m, withLen) >= cap then None
      else Some(Glue(HeaderLines(m, withLen)) + "\n\n")
  {
    hide Glue, Decimal;
    if m.verb == [] { return None; }
    ghost var all, lines := HeaderLines(m, withLen), ["VERB " + m.verb];
    r := AppendLine("", cap, "VERB " + m.verb, [], all);
    if r.None? { return; }
    assert [] + ["VERB " + m.verb] == lines;
    if withLen {
      r := AppendLine(r.value, cap, "LEN " + Decimal(|m.payload|), lines, all);
      if r.None? { return; }
      lines := lines + ["LEN " + Decimal(|m.payload|)];
    }
    if m.replyTo != [] {
      r := AppendLine(r.value, cap, "REPLY-TO " + m.replyTo, lines, all);
      if r.None? { return; }
      lines := lines + ["REPLY-TO " + m.replyTo];
    }
    if m.taskId != [] {
      r := AppendLine(r.value, cap, "TASK-ID " + m.taskId, lines, all);
      if r.None? { return; }
      lines := lines + ["TASK-ID " + m.taskId];
    }
    assert lines == all;
    if |r.value| + 1 >= cap { return None; }
    assert Glue(all) + "\n" + "\n" == Glue(all) + "\n\n";
    return Some(r.value + "\n");
  }

  lemma {:induction false} GluePrefix(lines: seq<string>, n: nat)
    requires n <= |lines|
    ensures |Glue(lines[..n])| <= |Glue(lines)|
  {
    if n == |lines| {
      assert lines[..n] == lines;
    } else {
      GluePrefix(lines[..|lines| - 1], n);
      assert lines[..|lines| - 1][..n] == lines[..n];
      assert lines[..|lines| - 1] + [lines[|lines| - 1]] == lines;
      GlueSnoc(lines[..|lines| - 1], lines[|lines| - 1]);
    }
  }

  /** ipc_send's bytes for one message. */
  method IpcFrame(m: Message, withLen: bool) returns (r: Option<string>)
    ensures r == Encode(m, withLen)
  {
    var h := BuildHeader(m, withLen, IPC_HEADER_HEADROOM);
    if h.None? { return None; }
    if |m.payload| > IPC_MSG_HARD_CAP { return None; }
    return Some(h.value + m.payload);
  }

  /** agentfs_send's bytes for one message. */
  method AgentfsFrame(m: Message) returns (r: Option<string>)
    ensures r ==
      if |m.payload| > MAX_PAYLOAD || m.verb == [] || |m.verb| >= MAX_VERB || |Frame(m, true)| > MAX_PAYLOAD + 4096
                    || HeaderSize(m, true) >= MAX_PAYLOAD + 4096 then None else Some(Frame(m, true))
  {
    if |m.payload| > MAX_PAYLOAD || m.verb == [] || |m.verb| >= MAX_VERB { return None; }
    var h := BuildHeader(m, true, MAX_PAYLOAD + 4096);
    if h.None? { return None; }
    if |h.value| + |m.payload| > MAX_PAYLOAD + 4096 { return None; }
    return Some(h.value + m.payload);
  }

  /** Python's "\n".join. */
  method JoinLines(lines: seq<string>) returns (s: string)
    ensures s == Glue(lines)
  {
    s := "";
    var i := 0;
    while i < |lines|
      invariant 0 <= i <= |lines| && s == Glue(lines[..i])
    {
      GlueSnoc(lines[..i], lines[i]);
      assert lines[..i + 1] == lines[..i] + [lines[i]];
      s := if i == 0 then lines[0] else s + "\n" + lines[i];
      i := i + 1;
    }
    assert lines[..i] == lines;
  }

  method PythonFrame(m: Message) returns (r: string)
    ensures r == Frame(m, true)
  {
    var lines := ["VERB " + m.verb, "LEN " + Decimal(|m.payload|)];
    if m.replyTo != [] { lines := lines + ["REPLY-TO " + m.replyTo]; }
    if m.taskId != [] { lines := lines + ["TASK-ID " + m.taskId]; }
    assert lines == HeaderLines(m, true);
    var head := JoinLines(lines);
    r := head + "\n\n" + m.payload;
  }

  // ----- parse_framed_in_buf --------------------------------------------

  datatype Header = Header(len: Option<nat>, replyTo: string, taskId: string)

  /** A header line after the first. Here a repeated header overwrites, the number need not end the line,
      and an oversized or space-led value is dropped. */
  function FramedLine(line: string, h: Header): Option<Header> {
    if "LEN " <= line then
      if |line| - 4 >= 32 then None
      else
        var r := StrtolOf(CString(line[4..]));
        if r.range || r.value < 0 || r.value > MAX_PAYLOAD then None else Some(h.(len := Some(r.value)))
    else if "REPLY-TO " <= line then
      var v := if |line| > 9 && line[9] == ' ' then [] else line[9..];
      Some(if |v| < MAX_NAME then h.(replyTo := v) else h)
    else if "TASK-ID " <= line then Some(if |line| - 8 < MAX_TASK_ID then h.(taskId := line[8..]) else h)
    else Some(h)
  }

  datatype Framed = Framed(h: Header, rest: string) | Bad

  function FramedLines(s: string, h: Header): Framed
    decreases |s|
  {
    var eol := IndexOf(s, '\n');
    if eol == |s| then Bad
    else if eol == 0 then Framed(h, s[1..])
    else
      var next := FramedLine(s[..eol], h);
      if next.None? then Bad else FramedLines(s[eol + 1..], next.value)
  }

  /** The message parse_framed_in_buf fills in; the strings are what C code then reads. */
  function FramedParse(buf: string): Option<Message> {
    var eol := IndexOf(buf, '\n');
    if eol == |buf| || !("VERB " <= buf[..eol]) then None
    else
      var v := SkipSpaces(buf[5..eol]);
      if |v| == 0 || |v| >= MAX_VERB then None
      else
        var f := FramedLines(buf[eol + 1..], Header(None, [], []));
        if f.Bad? || f.h.len.None? || |f.rest| < f.h.len.value then None
        else Some(Message(CString(v), CString(f.h.replyTo), CString(f.h.taskId), f.rest[..f.h.len.value]))
  }

  lemma FramedNext(buf: string, pos: nat, eol: nat, h: Header)
    requires pos <= eol <= |buf| && eol - pos == IndexOf(buf[pos..], '\n')
    ensures FramedLines(buf[pos..], h) ==
      if eol == |buf| then Bad
      else if eol == pos then Framed(h, buf[pos + 1..])
      else match FramedLine(buf[pos..eol], h) { case None => Bad case Some(next) => FramedLines(buf[eol + 1..], next) }
  {
    hide IndexOf, FramedLine;
    assert buf[pos..][..eol - pos] == buf[pos..eol];
    if eol < |buf| { assert buf[pos..][eol - pos + 1..] == buf[eol + 1..]; }
  }

  /** The cursor loop over the lines after the first. */
  method ParseHeaderLines(buf: string, from: nat) returns (f: Framed, pos: nat)
    requires from <= |buf|
    ensures f == FramedLines(buf[from..], Header(None, [], []))
    ensures f.Framed? ==> pos <= |buf| && f.rest == buf[pos..]
  {
    hide IndexOf, FramedLine, FramedLines;
    var h := Header(None, [], []);
    pos := from;
    while true
      invariant pos <= |buf| && FramedLines(buf[pos..], h) == FramedLines(buf[from..], Header(None, [], []))
      decreases |buf| - pos
    {
      var eol := FindChar(buf, pos, '\n');
      FramedNext(buf, pos, eol, h);
      if eol == |buf| { return Bad, pos; }
      if eol == pos { return Framed(h, buf[pos + 1..]), pos + 1; }
      var next := FramedLine(buf[pos..eol], h);
      if next.None? { return Bad, pos; }
      h, pos := next.value, eol + 1;
    }
  }

  method ParseFramed(buf: string) returns (r: Option<Message>)
    ensures r == FramedParse(buf)
  {
    hide IndexOf, FramedLines, CString;
    var eol := FindChar(buf, 0, '\n');
    assert buf[0..] == buf;
    if eol == |buf| { return None; }
    if !("VERB " <= buf[..eol]) { return None; }
    var verb := SkipSpaces(buf[5..eol]);
    if |verb| == 0 || |verb| >= MAX_VERB { return None; }
    var f, pos := ParseHeaderLines(buf, eol + 1);
    if f.Bad? { return None; }
    if f.h.len.None? { return None; }
    if |buf| - pos < f.h.len.value { return None; }
    assert buf[pos..][..f.h.len.value] == buf[pos..pos + f.h.len.value];
    return Some(Message(CString(verb), CString(f.h.replyTo), CString(f.h.taskId), buf[pos..pos + f.h.len.value]));
  }

  // ----- _parse_frame ---------------------------------------------------

  predicate PyWhite(c: char) { White(c) || '\U{1c}' <= c <= '\U{1f}' }

  function LStrip(s: string): string { if s != [] && PyWhite(s[0]) then LStrip(s[1..]) else s }

  function RStrip(s: string): string { if s != [] && PyWhite(s[|s| - 1]) then RStrip(s[..|s| - 1]) else s }

  /** int(text) for text of an optional sign and digits. */
  function PyInt(s: string): Option<int> {
    var t := RStrip(LStrip(s));
    var signed := t != [] && (t[0] == '-' || t[0] == '+');
    var ds := if signed then t[1..] else t;
    if ds == [] || Digits(ds) != ds then None
    else Some(if signed && t[0] == '-' then -(Number(Digits(ds)) as int) else Number(Digits(ds)))
  }

  datatype PyHeader = PyHeader(verb: string, len: int, replyTo: string, taskId: string)

  function PyLine(line: string, p: PyHeader): Option<PyHeader> {
    if "VERB " <= line then Some(p.(verb := LStrip(line[5..])))
    else if "LEN " <= line then (if PyInt(line[4..]).None? then None else Some(p.(len := PyInt(line[4..]).value)))
    else if "REPLY-TO " <= line then Some(p.(replyTo := LStrip(line[9..])))
    else if "TASK-ID " <= line then Some(p.(taskId := LStrip(line[8..])))
    else Some(p)
  }

  function PyLines(lines: seq<string>, p: PyHeader): Option<PyHeader> {
    if lines == [] then Some(p)
    else
      var next := PyLine(lines[0], p);
      if next.None? then None else PyLines(lines[1..], next.value)
  }

  /** The message and how many bytes of the buffer it used. */
  function PyParse(buf: string): Option<(Message, nat)> {
    var sep := FindSep(buf);
    if sep == |buf| then None
    else
      var p := PyLines(Lines(buf[..sep]), PyHeader([], -1, [], []));
      if p.None? || p.value.len < 0 || p.value.verb == [] || |buf| - sep - 2 < p.value.len then None
      else
        var start, n := sep + 2, p.value.len;
        Some((Message(p.value.verb, p.value.replyTo, p.value.taskId, buf[start..start + n]), start + n))
  }

  /** The loop of _parse_frame over the header lines. */
  method ParsePython(buf: string) returns (r: Option<(Message, nat)>)
    ensures r == PyParse(buf)
  {
    hide FindSep, Lines, PyLine;
    var sep := FindSep(buf);
    if sep == |buf| { return None; }
    var lines, p, i := Lines(buf[..sep]), PyHeader([], -1, [], []), 0;
    assert lines[0..] == lines;
    while i < |lines|
      invariant 0 <= i <= |lines| && PyLines(lines[i..], p) == PyLines(lines, PyHeader([], -1, [], []))
    {
      assert lines[i..][1..] == lines[i + 1..];
      var next := PyLine(lines[i], p);
      if next.None? { return None; }
      p, i := next.value, i + 1;
    }
    if p.len < 0 || p.verb == [] { return None; }
    var start := sep + 2;
    if |buf| - start < p.len { return None; }
    return Some((Message(p.verb, p.replyTo, p.taskId, buf[start..start + p.len]), start + p.len));
  }

  // ----- the decoders agree on what the encoders produce ----------------

  /** A header value every decoder keeps: ASCII without white space or NUL. */
  ghost predicate Neat(v: string) { forall i :: 0 <= i < |v| ==> v[i] != NUL && !PyWhite(v[i]) && v[i] < '\U{80}' }

  ghost predicate Declared(m: Message) {
    && 0 < |m.verb| < MAX_VERB && |m.replyTo| < MAX_NAME && |m.taskId| < MAX_TASK_ID && |m.payload| <= MAX_PAYLOAD
    && Neat(m.verb) && Neat(m.replyTo) && Neat(m.taskId)
  }

  lemma NeatIsPlain(v: string)
    requires Neat(v)
    ensures Plain(v) && CString(v) == v && SkipSpaces(v) == v && LStrip(v) == v
  {
    assert v[..|v|] == v;
    IndexOfIs(v, NUL, |v|);
  }

  /** The lines after the first, then the payload. */
  function Optional(m: Message): seq<string> {
    (if m.replyTo != [] then ["REPLY-TO " + m.replyTo] else []) +
      (if m.taskId != [] then ["TASK-ID " + m.taskId] else [])
  }

  function LenLineOf(m: Message): string { "LEN " + Decimal(|m.payload|) }

  lemma HeaderLinesSplit(m: Message)
    ensures HeaderLines(m, true) == ["VERB " + m.verb] + ([LenLineOf(m)] + Optional(m))
  {
  }

  lemma {:induction false} JoinIsGlue(lines: seq<string>)
    requires lines != []
    ensures Join(lines) == Glue(lines) + "\n"
  {
    if |lines| == 1 {
      assert lines[1..] == [];
    } else {
      JoinIsGlue(lines[1..]);
      assert lines[0] + "\n" + (Glue(lines[1..]) + "\n") == lines[0] + "\n" + Glue(lines[1..]) + "\n";
    }
  }

  function FramedAll(lines: seq<string>, h: Header): Option<Header> {
    if lines == [] then Some(h)
    else
      var next := FramedLine(lines[0], h);
      if next.None? then None else FramedAll(lines[1..], next.value)
  }

  lemma {:induction false} FramedLinesFold(lines: seq<string>, rest: string, h: Header)
    requires AreLines(lines) && FramedAll(lines, h).Some?
    ensures FramedLines(Join(lines) + "\n" + rest, h) == Framed(FramedAll(lines, h).value, rest)
  {
    hide FramedLine;
    var s := Join(lines) + "\n" + rest;
    if lines == [] {
      IndexOfIs(s, '\n', 0);
      assert s[1..] == rest;
    } else {
      var tail := Join(lines[1..]) + "\n" + rest;
      assert s == lines[0] + "\n" + tail;
      assert s[..|lines[0]|] == lines[0];
      IndexOfIs(s, '\n', |lines[0]|);
      assert s[|lines[0]| + 1..] == tail;
      FramedLinesFold(lines[1..], rest, FramedLine(lines[0], h).value);
    }
  }

  lemma {:induction false} SplitGlued(lines: seq<string>)
    requires AreLines(lines) && lines != []
    ensures Lines(Glue(lines)) == lines
  {
    var s := Glue(lines);
    if |lines| == 1 {
      assert s[..|s|] == s;
      IndexOfIs(s, '\n', |s|);
    } else {
      assert s[..|lines[0]|] == lines[0];
      IndexOfIs(s, '\n', |lines[0]|);
      assert s[|lines[0]| + 1..] == Glue(lines[1..]);
      SplitGlued(lines[1..]);
      assert [lines[0]] + lines[1..] == lines;
    }
  }

  lemma StrtolOfDecimal(n: nat)
    requires n <= MAX_PAYLOAD
    ensures var r := StrtolOf(CString(Decimal(n))); !r.range && r.value == n
  {
    LenOfDecimal(n);
    assert Decimal(n)[..|Decimal(n)|] == Decimal(n);
    IndexOfIs(Decimal(n), NUL, |Decimal(n)|);
  }

  lemma KeyValue(key: string, v: string)
    ensures key <= key + v && (key + v)[|key|..] == v
  {
  }

  lemma FramedLen(n: nat, h: Header)
    requires n <= MAX_PAYLOAD
    ensures FramedLine("LEN " + Decimal(n), h) == Some(h.(len := Some(n)))
  {
    hide StrtolOf, CString, Decimal;
    KeyValue("LEN ", Decimal(n));
    ShortDecimal(n);
    StrtolOfDecimal(n);
  }

  lemma FramedReply(v: string, h: Header)
    requires Neat(v) && |v| < MAX_NAME
    ensures FramedLine("REPLY-TO " + v, h) == Some(h.(replyTo := v))
  {
    hide StrtolOf, CString;
    var line := "REPLY-TO " + v;
    KeyValue("REPLY-TO ", v);
    assert line[0] == 'R' && (v != [] ==> line[9] == v[0]);
  }

  lemma FramedTask(v: string, h: Header)
    requires |v| < MAX_TASK_ID
    ensures FramedLine("TASK-ID " + v, h) == Some(h.(taskId := v))
  {
    hide StrtolOf, CString;
    KeyValue("TASK-ID ", v);
    assert ("TASK-ID " + v)[0] == 'T';
  }

  lemma FramedOptional(m: Message)
    requires Declared(m)
    ensures FramedAll([LenLineOf(m)] + Optional(m), Header(None, [], [])) ==
      Some(Header(Some(|m.payload|), m.replyTo, m.taskId))
  {
    hide FramedLine, Decimal, Neat;
    var h := Header(None, [], []);
    var h1 := h.(len := Some(|m.payload|));
    FramedLen(|m.payload|, h);
    FramedReply(m.replyTo, h1);
    FramedTask(m.taskId, h1.(replyTo := m.replyTo));
    var b := if m.taskId != [] then ["TASK-ID " + m.taskId] else [];
    FramedCons(LenLineOf(m), Optional(m), h, h1);
    if m.replyTo != [] { FramedCons("REPLY-TO " + m.replyTo, b, h1, h1.(replyTo := m.replyTo)); }
    else { assert Optional(m) == b; }
    if m.taskId != [] {
      var h2 := h1.(replyTo := m.replyTo);
      assert b == ["TASK-ID " + m.taskId] + [];
      FramedCons("TASK-ID " + m.taskId, [], h2, h2.(taskId := m.taskId));
    }
  }

  lemma FramedCons(line: string, rest: seq<string>, h: Header, h': Header)
    requires FramedLine(line, h) == Some(h')
    ensures FramedAll([line] + rest, h) == FramedAll(rest, h')
  {
    hide FramedLine;
    assert ([line] + rest)[1..] == rest;
  }

  /** A frame of a VERB line and further lines, as parse_framed_in_buf takes it apart. */
  lemma FramedParseIs(verb: string, lines: seq<string>, rest: string, h: Header)
    requires Neat(verb) && 0 < |verb| < MAX_VERB && AreLines(lines)
    requires FramedAll(lines, Header(None, [], [])) == Some(h) && h.len.Some? && h.len.value <= |rest|
    ensures FramedParse("VERB " + verb + "\n" + (Join(lines) + "\n" + rest)) ==
      Some(Message(verb, CString(h.replyTo), CString(h.taskId), rest[..h.len.value]))
  {
    hide FramedLines, FramedAll, CString, Join, SkipSpaces;
    var line, s := "VERB " + verb, Join(lines) + "\n" + rest;
    var buf := line + "\n" + s;
    NeatIsPlain(verb);
    assert buf[..|line|] == line && buf[|line| + 1..] == s && buf[5..|line|] == verb;
    assert forall c :: c in line ==> c in "VERB " || c in verb;
    IndexOfIs(buf, '\n', |line|);
    FramedLinesFold(lines, rest, Header(None, [], []));
  }

  /** agentfs readers decode a built frame to the message that was sent. */
  lemma FramedRoundTrip(m: Message)
    requires Declared(m)
    ensures FramedParse(Frame(m, true)) == Some(m)
  {
    hide FramedParse, Glue, FramedAll, Neat, Optional, LenLineOf, Join;
    var lines := [LenLineOf(m)] + Optional(m);
    DeclaredIsPlain(m);
    HeaderLinesAreLines(m, true);
    HeaderLinesSplit(m);
    TailIsLines("VERB " + m.verb, lines, HeaderLines(m, true));
    FrameIsJoined(m);
    JoinCons("VERB " + m.verb, lines);
    Regroup("VERB " + m.verb + "\n", Join(lines), "\n", m.payload);
    FramedOptional(m);
    FramedParseIs(m.verb, lines, m.payload, Header(Some(|m.payload|), m.replyTo, m.taskId));
    NeatIsPlain(m.replyTo);
    NeatIsPlain(m.taskId);
    assert m.payload[..|m.payload|] == m.payload;
  }

  lemma FrameIsJoined(m: Message)
    ensures Frame(m, true) == Join(HeaderLines(m, true)) + "\n" + m.payload
  {
    hide HeaderLines;
    HeaderLinesSplit(m);
    var g := Glue(HeaderLines(m, true));
    JoinIsGlue(HeaderLines(m, true));
    assert g + "\n\n" == g + "\n" + "\n";
  }

  lemma JoinCons(line: string, lines: seq<string>)
    ensures Join([line] + lines) == line + "\n" + Join(lines)
  {
    assert ([line] + lines)[1..] == lines;
  }

  lemma TailIsLines(line: string, lines: seq<string>, all: seq<string>)
    requires AreLines(all) && all == [line] + lines
    ensures AreLines(lines) && line != [] && '\n' !in line
  {
    assert all[0] == line && forall i :: 0 <= i < |lines| ==> lines[i] == all[i + 1];
  }

  lemma DeclaredIsPlain(m: Message)
    requires Declared(m)
    ensures PlainMessage(m)
  {
    NeatIsPlain(m.verb);
    NeatIsPlain(m.replyTo);
    NeatIsPlain(m.taskId);
  }

  lemma {:induction false} LStripDigits(s: string)
    requires s != [] && forall i :: 0 <= i < |s| ==> IsDigit(s[i])
    ensures PyInt(s) == Some(Number(s))
  {
    assert LStrip(s) == s && RStrip(s) == s;
    AllDigits(s);
  }

  lemma PyCons(line: string, rest: seq<string>, p: PyHeader, p': PyHeader)
    requires PyLine(line, p) == Some(p')
    ensures PyLines([line] + rest, p) == PyLines(rest, p')
  {
    hide PyLine;
    assert ([line] + rest)[1..] == rest;
  }

  lemma PyVerb(v: string, p: PyHeader)
    requires Neat(v)
    ensures PyLine("VERB " + v, p) == Some(p.(verb := v))
  {
    KeyValue("VERB ", v);
  }

  lemma PyLen(n: nat, p: PyHeader)
    ensures PyLine("LEN " + Decimal(n), p) == Some(p.(len := n))
  {
    hide PyInt, Decimal;
    KeyValue("LEN ", Decimal(n));
    assert ("LEN " + Decimal(n))[0] == 'L';
    LStripDigits(Decimal(n));
    NumberOfDecimal(n);
  }

  lemma PyReply(v: string, p: PyHeader)
    requires Neat(v)
    ensures PyLine("REPLY-TO " + v, p) == Some(p.(replyTo := v))
  {
    hide PyInt;
    KeyValue("REPLY-TO ", v);
    assert ("REPLY-TO " + v)[0] == 'R';
  }

  lemma PyTask(v: string, p: PyHeader)
    requires Neat(v)
    ensures PyLine("TASK-ID " + v, p) == Some(p.(taskId := v))
  {
    hide PyInt;
    KeyValue("TASK-ID ", v);
    assert ("TASK-ID " + v)[0] == 'T';
  }

  lemma PyHeaderReads(m: Message)
    requires Declared(m)
    ensures PyLines(HeaderLines(m, true), PyHeader([], -1, [], [])) ==
      Some(PyHeader(m.verb, |m.payload|, m.replyTo, m.taskId))
  {
    hide PyLine, Decimal, Neat;
    var p0 := PyHeader([], -1, [], []);
    var p1 := p0.(verb := m.verb);
    var p2 := p1.(len := |m.payload|);
    var p3 := p2.(replyTo := m.replyTo);
    PyVerb(m.verb, p0);
    PyLen(|m.payload|, p1);
    PyReply(m.replyTo, p2);
    PyTask(m.taskId, p3);
    HeaderLinesSplit(m);
    var b := if m.taskId != [] then ["TASK-ID " + m.taskId] else [];
    PyCons("VERB " + m.verb, [LenLineOf(m)] + Optional(m), p0, p1);
    PyCons(LenLineOf(m), Optional(m), p1, p2);
    if m.replyTo != [] { PyCons("REPLY-TO " + m.replyTo, b, p2, p3); } else { assert Optional(m) == b; }
    if m.taskId != [] {
      assert b == ["TASK-ID " + m.taskId] + [];
      PyCons("TASK-ID " + m.taskId, [], p3, p3.(taskId := m.taskId));
    }
  }

  lemma PyRoundTrip(m: Message, more: string)
    requires Declared(m)
    ensures PyParse(Frame(m, true) + more) == Some((m, |Frame(m, true)|))
  {
    hide Glue, FindSep, PyLines, HeaderLines, Lines, Neat;
    var lines := HeaderLines(m, true);
    var buf := Frame(m, true) + more;
    DeclaredIsPlain(m);
    HeaderLinesAreLines(m, true);
    assert buf == Glue(lines) + "\n\n" + (m.payload + more);
    FindSepGlued(lines, m.payload + more);
    assert buf[..|Glue(lines)|] == Glue(lines);
    SplitGlued(lines);
    PyHeaderReads(m);
    var start := |Glue(lines)| + 2;
    assert buf[start..start + |m.payload|] == m.payload;
  }

  /** The three decoders return the same message, the one that was sent, for every frame the three encoders
      produce from fields within the declared limits. */
  lemma DecodersAgree(m: Message)
    requires Declared(m)
    ensures Decoded(Frame(m, true)) == Some(m)
    ensures FramedParse(Frame(m, true)) == Some(m)
    ensures PyParse(Frame(m, true)) == Some((m, |Frame(m, true)|))
  {
    hide Decoded, FramedParse, PyParse, Frame, Neat;
    DeclaredIsPlain(m);
    RoundTrip(m, true);
    FramedRoundTrip(m);
    PyRoundTrip(m, "");
    assert Frame(m, true) + "" == Frame(m, true);
  }

  /** Outside those frames they differ. Of two LEN lines parse_framed_in_buf takes the last; the in-place
      parser refuses the frame. */
  lemma SecondLenIsTaken(verb: string, a: nat, b: nat, rest: string)
    requires Neat(verb) && 0 < |verb| < MAX_VERB && a <= MAX_PAYLOAD && b <= MAX_PAYLOAD && b <= |rest|
    ensures var buf := "VERB " + verb + "\n" + (Join(["LEN " + Decimal(a), "LEN " + Decimal(b)]) + "\n" + rest);
      FramedParse(buf) == Some(Message(verb, [], [], rest[..b])) && Decoded(buf) == None
  {
    hide Decimal, FramedLine, Neat, FramedParse, Decoded, Join, CString;
    var l1, l2, h := "LEN " + Decimal(a), "LEN " + Decimal(b), Header(None, [], []);
    TwoLenLines(verb, a, b);
    FramedLen(a, h);
    FramedLen(b, h.(len := Some(a)));
    assert [l1, l2] == [l1] + ([l2] + []);
    FramedCons(l1, [l2] + [], h, h.(len := Some(a)));
    FramedCons(l2, [], h.(len := Some(a)), h.(len := Some(b)));
    FramedParseIs(verb, [l1, l2], rest, h.(len := Some(b)));
    EmptyCString();
    SecondLenRefused(verb, a, b, rest);
  }

  lemma EmptyCString()
    ensures CString([]) == []
  {
  }

  lemma TwoLenLines(verb: string, a: nat, b: nat)
    requires Neat(verb)
    ensures AreLines(["LEN " + Decimal(a), "LEN " + Decimal(b)])
    ensures AreLines(["VERB " + verb, "LEN " + Decimal(a), "LEN " + Decimal(b)])
  {
    assert forall c :: c in Decimal(a) ==> IsDigit(c);
    assert forall c :: c in Decimal(b) ==> IsDigit(c);
    NeatIsPlain(verb);
  }

  lemma SecondLenRefused(verb: string, a: nat, b: nat, rest: string)
    requires Neat(verb) && 0 < |verb| && a <= MAX_PAYLOAD
    ensures Decoded("VERB " + verb + "\n" + (Join(["LEN " + Decimal(a), "LEN " + Decimal(b)]) + "\n" + rest)) == None
  {
    hide Decimal, Neat, TakeLines, FindSep, Glue, Join;
    var l0, l1, l2 := "VERB " + verb, "LEN " + Decimal(a), "LEN " + Decimal(b);
    var lines := [l0] + [l1, l2];
    var buf := l0 + "\n" + (Join([l1, l2]) + "\n" + rest);
    assert lines == [l0, l1, l2];
    TwoLenLines(verb, a, b);
    JoinCons(l0, [l1, l2]);
    JoinIsGlue(lines);
    assert Glue(lines) + "\n" + "\n" == Glue(lines) + "\n\n";
    assert buf == Glue(lines) + "\n\n" + rest;
    FindSepGlued(lines, rest);
    TakeLinesGlued(lines, NO_FIELDS);
    assert buf[..|Glue(lines)|] == Glue(lines);
    SecondLenFails(verb, a, b);
  }

  lemma SecondLenFails(verb: string, a: nat, b: nat)
    requires Neat(verb) && 0 < |verb| && a <= MAX_PAYLOAD
    ensures TakeAll(["VERB " + verb] + ["LEN " + Decimal(a), "LEN " + Decimal(b)], NO_FIELDS) == None
  {
    hide Decimal, Neat, ValueAfter, LenValue;
    var l0, l1, l2 := "VERB " + verb, "LEN " + Decimal(a), "LEN " + Decimal(b);
    NeatIsPlain(verb);
    VerbLine(verb, NO_FIELDS);
    var d := NO_FIELDS.(verb := Some(verb));
    LenLine(a, d);
    TakeAllConcat([l0], [l1, l2], NO_FIELDS);
    assert [l1, l2] == [l1] + [l2];
    TakeAllConcat([l1], [l2], d);
    TakeOne(l2, d.(len := Some(a)));
    assert l2[0] == 'L';
  }

  // ----- _recv_one_frame ------------------------------------------------

  /** What a socket delivers before it is closed; an empty chunk is the end of file. */
  function Concat(chunks: seq<string>): string {
    if chunks == [] || chunks[0] == [] then [] else chunks[0] + Concat(chunks[1..])
  }

  lemma {:induction false} FindSepInPrefix(s: string, k: nat)
    requires k <= |s| && k < FindSep(s) + 2
    ensures FindSep(s[..k]) == k
  {
    if k >= 2 {
      assert s[..k][1..] == s[1..][..k - 1];
      FindSepInPrefix(s[1..], k - 1);
    }
  }

  /** No proper beginning of a frame is taken for a frame. */
  lemma PrefixIsIncomplete(m: Message, k: nat)
    requires Declared(m) && k < |Frame(m, true)|
    ensures PyParse(Frame(m, true)[..k]) == None
  {
    hide Glue, FindSep, PyLines, HeaderLines, Lines, Neat;
    var lines := HeaderLines(m, true);
    var buf, g := Frame(m, true), Glue(lines);
    DeclaredIsPlain(m);
    HeaderLinesAreLines(m, true);
    FindSepGlued(lines, m.payload);
    if k < |g| + 2 {
      FindSepInPrefix(buf, k);
    } else {
      var part := m.payload[..k - |g| - 2];
      assert buf[..k] == g + "\n\n" + part;
      FindSepGlued(lines, part);
      assert buf[..k][..|g|] == g;
      SplitGlued(lines);
      PyHeaderReads(m);
    }
  }

  /** The read loop: parse what has arrived, and read on while it is not a whole frame. However the bytes are
      chunked, a stream that begins with a built frame yields that frame's message. */
  method RecvOneFrame(chunks: seq<string>, ghost m: Message) returns (r: Option<Message>)
    ensures Declared(m) && Frame(m, true) <= Concat(chunks) ==> r == Some(m)
  {
    hide PyParse, Frame, Declared;
    var buf, i := "", 0;
    ghost var f := Frame(m, true);
    assert chunks[0..] == chunks;
    while true
      invariant 0 <= i <= |chunks| && buf + Concat(chunks[i..]) == Concat(chunks)
      decreases |chunks| - i
    {
      var p := ParsePython(buf);
      if Declared(m) && f <= Concat(chunks) { StepOfRecv(buf, Concat(chunks[i..]), m); }
      if p.Some? { return Some(p.value.0); }
      if i == |chunks| || chunks[i] == [] { return None; }
      assert chunks[i..][1..] == chunks[i + 1..];
      assert buf + (chunks[i] + Concat(chunks[i + 1..])) == buf + chunks[i] + Concat(chunks[i + 1..]);
      buf, i := buf + chunks[i], i + 1;
    }
  }

  lemma StepOfRecv(buf: string, more: string, m: Message)
    requires Declared(m) && Frame(m, true) <= buf + more
    ensures PyParse(buf) == (if |buf| < |Frame(m, true)| then None else Some((m, |Frame(m, true)|)))
  {
    hide PyParse, Frame, Declared;
    var f := Frame(m, true);
    if |buf| < |f| {
      assert buf == f[..|buf|];
      PrefixIsIncomplete(m, |buf|);
    } else {
      assert buf == f + buf[|f|..];
      PyRoundTrip(m, buf[|f|..]);
    }
  }
}
