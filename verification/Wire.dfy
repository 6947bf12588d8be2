/** The message format of ipc.c: header lines, an empty line, the payload. */
module Wire {
  import opened Options
  import opened Text

  const IPC_MSG_HARD_CAP := 0x10_0000
  const IPC_HEADER_HEADROOM := 4096
  const LONG_MAX := 0x7fff_ffff_ffff_ffff

  datatype Message = Message(verb: string, replyTo: string, taskId: string, payload: string)

  // ----- encoding -------------------------------------------------------

  /** "\n".join(lines) */
  function Glue(lines: seq<string>): string {
    if lines == [] then [] else if |lines| == 1 then lines[0] else lines[0] + "\n" + Glue(lines[1..])
  }

  function HeaderLines(m: Message, withLen: bool): seq<string> {
    ["VERB " + m.verb]
    + (if withLen then ["LEN " + Decimal(|m.payload|)] else [])
    + (if m.replyTo != [] then ["REPLY-TO " + m.replyTo] else [])
    + (if m.taskId != [] then ["TASK-ID " + m.taskId] else [])
  }

  function Frame(m: Message, withLen: bool): string { Glue(HeaderLines(m, withLen)) + "\n\n" + m.payload }

  /** Header bytes including the empty line. */
  function HeaderSize(m: Message, withLen: bool): nat { |Glue(HeaderLines(m, withLen))| + 2 }

  /** ipc_send: build_header into its fixed buffer, then the payload. */
  function Encode(m: Message, withLen: bool): Option<string> {
    if m.verb == [] || HeaderSize(m, withLen) >= IPC_HEADER_HEADROOM || |m.payload| > IPC_MSG_HARD_CAP then None
    else Some(Frame(m, withLen))
  }

  // ----- strtol ---------------------------------------------------------

  /** The value, how many characters were used (none when there is no number), and whether it overflowed. */
  datatype Strtol = Strtol(value: int, used: nat, range: bool)

  function StrtolOf(s: string): (r: Strtol)
    ensures r.used <= |s|
  {
    var w := SkipWhite(s);
    SkipWhiteIsSuffix(s);
    var signed := w != [] && (w[0] == '-' || w[0] == '+');
    var ds := Digits(if signed then w[1..] else w);
    DigitsIsPrefix(if signed then w[1..] else w);
    if ds == [] then Strtol(0, 0, false)
    else
      var n := if signed && w[0] == '-' then -(Number(ds) as int) else Number(ds);
      Strtol(n, |s| - |w| + (if signed then 1 else 0) + |ds|, n > LONG_MAX || n < -LONG_MAX - 1)
  }

  lemma {:induction false} SkipWhiteIsSuffix(s: string)
    ensures |SkipWhite(s)| <= |s| && SkipWhite(s) == s[|s| - |SkipWhite(s)|..]
    ensures forall i :: 0 <= i < |s| - |SkipWhite(s)| ==> White(s[i])
    ensures SkipWhite(s) != [] ==> !White(SkipWhite(s)[0])
  {
    if s != [] && White(s[0]) {
      var t := s[1..];
      var w := SkipWhite(t);
      SkipWhiteIsSuffix(t);
      assert t[|t| - |w|..] == s[|s| - |w|..];
      forall i | 0 <= i < |s| - |w| ensures White(s[i]) {
        if i > 0 { assert s[i] == t[i - 1]; }
      }
    }
  }

  lemma {:induction false} DigitsIsPrefix(s: string)
    ensures Digits(s) <= s && (|Digits(s)| < |s| ==> !IsDigit(s[|Digits(s)|]))
  {
    if s != [] && IsDigit(s[0]) { DigitsIsPrefix(s[1..]); }
  }

  /** The test both ends make of a LEN value: a whole number, not negative, not above the cap. */
  function LenValue(s: string): Option<nat> {
    var r := StrtolOf(s);
    if r.range || r.used == 0 || r.used != |s| || r.value < 0 || r.value > IPC_MSG_HARD_CAP then None else Some(r.value)
  }

  // ----- parse_inplace --------------------------------------------------

  datatype Fields = Fields(verb: Option<string>, len: Option<nat>, replyTo: Option<string>, taskId: Option<string>)

  const NO_FIELDS := Fields(None, None, None, None)

  /** A field value as the C string that starts after the spaces. */
  function ValueAfter(line: string, n: nat): string
    requires n <= |line|
  {
    CString(SkipSpaces(line[n..]))
  }

  function TakeLine(line: string, d: Fields): Option<Fields> {
    if "VERB " <= line then
      if d.verb.Some? || ValueAfter(line, 5) == [] then None else Some(d.(verb := Some(ValueAfter(line, 5))))
    else if "LEN " <= line then
      if d.len.Some? || LenValue(ValueAfter(line, 4)).None? then None
      else Some(d.(len := LenValue(ValueAfter(line, 4))))
    else if "REPLY-TO " <= line then
      if d.replyTo.Some? then None else Some(d.(replyTo := Some(ValueAfter(line, 9))))
    else if "TASK-ID " <= line then
      if d.taskId.Some? then None else Some(d.(taskId := Some(ValueAfter(line, 8))))
    else Some(d)
  }

  function TakeLines(s: string, d: Fields): Option<Fields>
    decreases |s|
  {
    if s == [] then Some(d)
    else
      var eol := IndexOf(s, '\n');
      match TakeLine(s[..eol], d)
      case None => None
      case Some(d') => if eol == |s| then Some(d') else TakeLines(s[eol + 1..], d')
  }

  /** The first empty line's separator, or the length. */
  function FindSep(s: string): (i: nat)
    ensures i <= |s| && (i < |s| ==> i + 1 < |s| && s[i] == '\n' && s[i + 1] == '\n')
  {
    if |s| < 2 then |s| else if s[0] == '\n' && s[1] == '\n' then 0 else 1 + FindSep(s[1..])
  }

  /** What the parser hands out: three strings, and where the payload lies in the buffer. */
  datatype View = View(verb: string, replyTo: string, taskId: string, start: nat, len: nat)

  function OrEmpty(o: Option<string>): string { if o.Some? then o.value else [] }

  function Finish(d: Fields, start: nat, avail: nat): Option<View> {
    if d.verb.None? then None
    else
      var len := if d.len.Some? then d.len.value else avail;
      if len > avail then None else Some(View(d.verb.value, OrEmpty(d.replyTo), OrEmpty(d.taskId), start, len))
  }

  function Parse(buf: string): (r: Option<View>)
    ensures r.Some? ==> r.value.start + r.value.len <= |buf|
  {
    var sep := FindSep(buf);
    if sep == |buf| then None
    else match TakeLines(buf[..sep], NO_FIELDS)
      case None => None
      case Some(d) => Finish(d, sep + 2, |buf| - sep - 2)
  }

  function Decoded(buf: string): Option<Message> {
    match Parse(buf)
    case None => None
    case Some(v) => Some(Message(v.verb, v.replyTo, v.taskId, buf[v.start..v.start + v.len]))
  }

  // ----- round trip -----------------------------------------------------

  /** A header value that survives: one line, no NUL, no leading space. */
  ghost predicate Plain(v: string) { '\n' !in v && NUL !in v && (v != [] ==> v[0] != ' ') }

  ghost predicate PlainMessage(m: Message) { m.verb != [] && Plain(m.verb) && Plain(m.replyTo) && Plain(m.taskId) }

  lemma {:induction false} FindSepSkips(a: string, s: string)
    requires '\n' !in a && s != []
    ensures FindSep(a + s) == |a| + FindSep(s)
  {
    if a == [] {
      assert a + s == s;
    } else {
      assert a[0] in a;
      FindSepSkips(a[1..], s);
      assert (a + s)[1..] == a[1..] + s;
    }
  }

  lemma {:induction false} FindSepGlued(lines: seq<string>, rest: string)
    requires AreLines(lines) && lines != []
    ensures FindSep(Glue(lines) + "\n\n" + rest) == |Glue(lines)|
  {
    var s := Glue(lines) + "\n\n" + rest;
    if |lines| == 1 {
      assert s == lines[0] + ("\n\n" + rest);
      FindSepSkips(lines[0], "\n\n" + rest);
    } else {
      var t := Glue(lines[1..]) + "\n\n" + rest;
      assert s == lines[0] + ("\n" + t);
      FindSepSkips(lines[0], "\n" + t);
      assert t[0] == lines[1][0] && lines[1][0] in lines[1];
      assert ("\n" + t)[1..] == t;
      FindSepGlued(lines[1..], rest);
    }
  }

  function TakeAll(lines: seq<string>, d: Fields): Option<Fields> {
    if lines == [] then Some(d)
    else match TakeLine(lines[0], d)
      case None => None
      case Some(d') => TakeAll(lines[1..], d')
  }

  lemma {:induction false} TakeLinesGlued(lines: seq<string>, d: Fields)
    requires AreLines(lines) && lines != []
    ensures TakeLines(Glue(lines), d) == TakeAll(lines, d)
  {
    hide TakeLine;
    var s := Glue(lines);
    if |lines| == 1 {
      assert s[..|s|] == s;
      IndexOfIs(s, '\n', |s|);
      assert lines[1..] == [];
    } else {
      assert s[..|lines[0]|] == lines[0];
      IndexOfIs(s, '\n', |lines[0]|);
      assert s[|lines[0]| + 1..] == Glue(lines[1..]);
      if TakeLine(lines[0], d).Some? { TakeLinesGlued(lines[1..], TakeLine(lines[0], d).value); }
    }
  }

  lemma {:induction false} TakeAllConcat(a: seq<string>, b: seq<string>, d: Fields)
    requires TakeAll(a, d).Some?
    ensures TakeAll(a + b, d) == TakeAll(b, TakeAll(a, d).value)
  {
    hide TakeLine;
    if a == [] {
      assert a + b == b;
    } else {
      assert (a + b)[1..] == a[1..] + b;
      TakeAllConcat(a[1..], b, TakeLine(a[0], d).value);
    }
  }

  lemma TakeOne(line: string, d: Fields)
    ensures TakeAll([line], d) == TakeLine(line, d)
  {
    hide TakeLine;
    assert [line][1..] == [];
  }

  lemma PlainValue(key: string, v: string)
    requires Plain(v)
    ensures ValueAfter(key + v, |key|) == v
  {
    assert (key + v)[|key|..] == v;
    assert v[..|v|] == v;
    IndexOfIs(v, NUL, |v|);
  }

  lemma {:induction false} AllDigits(s: string)
    requires forall i :: 0 <= i < |s| ==> IsDigit(s[i])
    ensures Digits(s) == s
  {
    if s != [] { AllDigits(s[1..]); }
  }

  lemma LenOfDecimal(n: nat)
    requires n <= IPC_MSG_HARD_CAP
    ensures Plain(Decimal(n)) && LenValue(Decimal(n)) == Some(n)
  {
    var s := Decimal(n);
    assert forall c :: c in s ==> IsDigit(c);
    assert IsDigit(s[0]);
    AllDigits(s);
    NumberOfDecimal(n);
  }

  lemma ShortDecimal(n: nat)
    requires n <= IPC_MSG_HARD_CAP
    ensures |Decimal(n)| <= 7
  {
    assert n / 10 / 10 / 10 / 10 / 10 / 10 < 10;
    assert |Decimal(n / 10 / 10 / 10 / 10 / 10 / 10)| == 1;
    assert |Decimal(n / 10 / 10 / 10 / 10 / 10)| <= 2;
    assert |Decimal(n / 10 / 10 / 10 / 10)| <= 3;
    assert |Decimal(n / 10 / 10 / 10)| <= 4;
    assert |Decimal(n / 10 / 10)| <= 5;
    assert |Decimal(n / 10)| <= 6;
  }

  lemma VerbLine(v: string, d: Fields)
    requires Plain(v) && v != [] && d.verb.None?
    ensures TakeAll(["VERB " + v], d) == Some(d.(verb := Some(v)))
  {
    TakeOne("VERB " + v, d);
    PlainValue("VERB ", v);
  }

  lemma LenLine(n: nat, d: Fields)
    requires n <= IPC_MSG_HARD_CAP && d.len.None?
    ensures TakeAll(["LEN " + Decimal(n)], d) == Some(d.(len := Some(n)))
  {
    hide LenValue, Decimal;
    TakeOne("LEN " + Decimal(n), d);
    LenOfDecimal(n);
    PlainValue("LEN ", Decimal(n));
  }

  lemma ReplyToLine(v: string, d: Fields)
    requires Plain(v) && d.replyTo.None?
    ensures TakeAll(["REPLY-TO " + v], d) == Some(d.(replyTo := Some(v)))
  {
    TakeOne("REPLY-TO " + v, d);
    assert ("REPLY-TO " + v)[0] == 'R';
    PlainValue("REPLY-TO ", v);
  }

  lemma TaskIdLine(v: string, d: Fields)
    requires Plain(v) && d.taskId.None?
    ensures TakeAll(["TASK-ID " + v], d) == Some(d.(taskId := Some(v)))
  {
    TakeOne("TASK-ID " + v, d);
    assert ("TASK-ID " + v)[0] == 'T';
    PlainValue("TASK-ID ", v);
  }

  function Given(v: string): Option<string> { if v == [] then None else Some(v) }

  /** The header lines of a message read back as its fields. */
  lemma HeaderReads(m: Message, withLen: bool)
    requires PlainMessage(m) && |m.payload| <= IPC_MSG_HARD_CAP
    ensures TakeAll(HeaderLines(m, withLen), NO_FIELDS) ==
      Some(Fields(Some(m.verb), if withLen then Some(|m.payload|) else None, Given(m.replyTo), Given(m.taskId)))
  {
    hide Plain, TakeAll, Decimal;
    var a := ["VERB " + m.verb];
    var b := if withLen then ["LEN " + Decimal(|m.payload|)] else [];
    var c := if m.replyTo != [] then ["REPLY-TO " + m.replyTo] else [];
    var e := if m.taskId != [] then ["TASK-ID " + m.taskId] else [];
    var d1 := NO_FIELDS.(verb := Some(m.verb));
    var d2 := if withLen then d1.(len := Some(|m.payload|)) else d1;
    var d3 := d2.(replyTo := Given(m.replyTo));
    VerbLine(m.verb, NO_FIELDS);
    TakeNone(d1); TakeNone(d2); TakeNone(d3);
    if withLen { LenLine(|m.payload|, d1); }
    TakeAllConcat(a, b, NO_FIELDS);
    if m.replyTo != [] { ReplyToLine(m.replyTo, d2); }
    TakeAllConcat(a + b, c, NO_FIELDS);
    if m.taskId != [] { TaskIdLine(m.taskId, d3); }
    TakeAllConcat(a + b + c, e, NO_FIELDS);
  }

  lemma TakeNone(d: Fields)
    ensures TakeAll([], d) == Some(d)
  {
  }

  lemma HeaderLinesAreLines(m: Message, withLen: bool)
    requires PlainMessage(m)
    ensures AreLines(HeaderLines(m, withLen)) && HeaderLines(m, withLen) != []
  {
    assert forall c :: c in Decimal(|m.payload|) ==> IsDigit(c);
  }

  /** A built frame parses back to the same fields and the same payload bytes, with or without LEN, whatever
      the payload holds. */
  lemma RoundTrip(m: Message, withLen: bool)
    requires PlainMessage(m) && |m.payload| <= IPC_MSG_HARD_CAP
    ensures Parse(Frame(m, withLen)) == Some(View(m.verb, m.replyTo, m.taskId, HeaderSize(m, withLen), |m.payload|))
    ensures Decoded(Frame(m, withLen)) == Some(m)
  {
    hide Plain, HeaderLines, TakeAll, TakeLines, FindSep, Glue;
    var lines := HeaderLines(m, withLen);
    var buf := Frame(m, withLen);
    HeaderLinesAreLines(m, withLen);
    FindSepGlued(lines, m.payload);
    assert buf[..|Glue(lines)|] == Glue(lines);
    TakeLinesGlued(lines, NO_FIELDS);
    HeaderReads(m, withLen);
    assert buf[HeaderSize(m, withLen)..HeaderSize(m, withLen) + |m.payload|] == m.payload;
  }

  // ----- exactly the plain messages survive -----------------------------

  ghost predicate PlainFields(d: Fields) {
    && (d.verb.Some? ==> d.verb.value != [] && Plain(d.verb.value))
    && (d.replyTo.Some? ==> Plain(d.replyTo.value)) && (d.taskId.Some? ==> Plain(d.taskId.value))
  }

  lemma ValueIsPlain(line: string, n: nat)
    requires n <= |line| && '\n' !in line
    ensures Plain(ValueAfter(line, n))
  {
    var v := SkipSpaces(line[n..]);
    forall c | c in CString(v) ensures c in line {
      var i :| 0 <= i < |CString(v)| && CString(v)[i] == c;
      assert v[i] == c && c in line[n..];
      var j :| 0 <= j < |line[n..]| && line[n..][j] == c;
      assert line[n + j] == c;
    }
  }

  lemma TakeLinePlain(line: string, d: Fields)
    requires '\n' !in line && PlainFields(d) && TakeLine(line, d).Some?
    ensures PlainFields(TakeLine(line, d).value)
  {
    hide Plain, ValueAfter, LenValue;
    if "VERB " <= line { ValueIsPlain(line, 5); }
    else if "REPLY-TO " <= line { ValueIsPlain(line, 9); }
    else if "TASK-ID " <= line { ValueIsPlain(line, 8); }
  }

  lemma {:induction false} TakeLinesPlain(s: string, d: Fields)
    requires PlainFields(d) && TakeLines(s, d).Some?
    ensures PlainFields(TakeLines(s, d).value)
    decreases |s|
  {
    hide PlainFields, TakeLine;
    if s != [] {
      var eol := IndexOf(s, '\n');
      TakeLinePlain(s[..eol], d);
      if eol < |s| { TakeLinesPlain(s[eol + 1..], TakeLine(s[..eol], d).value); }
    }
  }

  /** Whatever bytes arrive, the fields handed out are plain. */
  lemma DecodedIsPlain(buf: string)
    requires Decoded(buf).Some?
    ensures PlainMessage(Decoded(buf).value)
  {
    hide TakeLines, FindSep, CString, SkipSpaces, IndexOf;
    TakeLinesPlain(buf[..FindSep(buf)], NO_FIELDS);
  }

  /** Within the size cap, a message survives encoding and decoding if and only if it is plain. */
  lemma SurvivesExactlyIfPlain(m: Message, withLen: bool)
    requires |m.payload| <= IPC_MSG_HARD_CAP
    ensures Decoded(Frame(m, withLen)) == Some(m) <==> PlainMessage(m)
  {
    hide Decoded, PlainMessage;
    if PlainMessage(m) { RoundTrip(m, withLen); }
    if Decoded(Frame(m, withLen)) == Some(m) { DecodedIsPlain(Frame(m, withLen)); }
  }
}
