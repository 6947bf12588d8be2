/** When parse_framed_in_buf obeys the documented rule of the format: no repeated header, no malformed length, no
    value dropped. It is compared with the in-place parser, which enforces the rule, on every buffer it accepts. */
module FramedRule {
  import opened AgentNames
  import opened Options
  import opened Text
  import opened Wire
  import opened Codecs
  import IpcStream

  datatype Key = VerbKey | LenKey | ReplyKey | TaskKey

  function KeyOf(line: string): Option<Key> {
    if "VERB " <= line then Some(VerbKey)
    else if "LEN " <= line then Some(LenKey)
    else if "REPLY-TO " <= line then Some(ReplyKey)
    else if "TASK-ID " <= line then Some(TaskKey)
    else None
  }

  /** No known header occurs twice. */
  ghost predicate NoRepeat(lines: seq<string>) {
    forall i, j :: 0 <= i < j < |lines| && KeyOf(lines[i]).Some? ==> KeyOf(lines[j]) != KeyOf(lines[i])
  }

  /** White space, an optional sign, digits, and nothing else. */
  predicate WholeNumber(text: string) {
    var w := SkipWhite(CString(text));
    var ds := if w != [] && (w[0] == '-' || w[0] == '+') then w[1..] else w;
    ds != [] && Digits(ds) == ds
  }

  predicate SpaceLed(text: string) { text != [] && text[0] == ' ' }

  /** The line says what it means to both parsers: a verb that is not empty, a length that is one number, a
      reply-to and a task id that are neither led by a space nor too long, unless there is nothing in them. */
  predicate Kept(line: string) {
    match KeyOf(line)
    case None => true
    case Some(VerbKey) => ValueAfter(line, 5) != []
    case Some(LenKey) => WholeNumber(line[4..])
    case Some(ReplyKey) => ValueAfter(line, 9) == [] || (!SpaceLed(line[9..]) && |line| - 9 < MAX_NAME)
    case Some(TaskKey) => if |line| - 8 < MAX_TASK_ID then !SpaceLed(line[8..]) else ValueAfter(line, 8) == []
  }

  ghost predicate AllKept(lines: seq<string>) { forall i :: 0 <= i < |lines| ==> Kept(lines[i]) }

  // ----- the length -----------------------------------------------------

  /** A length that the in-buffer parser accepts is accepted in place, with the same value, if it is one number. */
  lemma LenAgrees(line: string, h: Header)
    requires KeyOf(line) == Some(LenKey) && FramedLine(line, h).Some?
    ensures LenValue(ValueAfter(line, 4)) == if WholeNumber(line[4..]) then FramedLine(line, h).value.len else None
  {
    var c := CString(line[4..]);
    IpcStream.LenAfterSpaces(line[4..]);
    var w := SkipWhite(c);
    SkipWhiteIsSuffix(c);
    DigitsIsPrefix(if w != [] && (w[0] == '-' || w[0] == '+') then w[1..] else w);
  }

  // ----- one line on both sides -----------------------------------------

  predicate Present(d: Fields, k: Key) {
    match k
    case VerbKey => d.verb.Some?
    case LenKey => d.len.Some?
    case ReplyKey => d.replyTo.Some?
    case TaskKey => d.taskId.Some?
  }

  /** Both sides hold the same values. */
  predicate Same(d: Fields, h: Header) {
    d.len == h.len && OrEmpty(d.replyTo) == CString(h.replyTo) && OrEmpty(d.taskId) == CString(h.taskId)
  }

  /** And what one side has not seen the other has not either. */
  predicate Sync(d: Fields, h: Header) {
    Same(d, h) && (d.replyTo.None? ==> h.replyTo == []) && (d.taskId.None? ==> h.taskId == [])
  }

  /** The in-place parser refuses a line that repeats a header, an empty verb and a malformed length. */
  lemma TakeLineIs(line: string, d: Fields, h: Header)
    requires FramedLine(line, h).Some?
    ensures TakeLine(line, d).Some? <==>
      (KeyOf(line).Some? ==> !Present(d, KeyOf(line).value)) &&
      ((KeyOf(line) == Some(VerbKey) || KeyOf(line) == Some(LenKey)) ==> Kept(line))
    ensures TakeLine(line, d).Some? ==>
      forall k :: Present(TakeLine(line, d).value, k) <==> Present(d, k) || KeyOf(line) == Some(k)
  {
    hide LenValue, ValueAfter, WholeNumber, StrtolOf, CString;
    if KeyOf(line) == Some(LenKey) { LenAgrees(line, h); }
  }

  lemma EmptyC()
    ensures CString([]) == []
  {
  }

  lemma SpaceLedDiffers(t: string)
    ensures !SpaceLed(t) ==> SkipSpaces(t) == t
    ensures SpaceLed(t) ==> CString(t) != [] && CString(t) != CString(SkipSpaces(t))
  {
    if SpaceLed(t) {
      assert t[0] != NUL;
      assert CString(t)[0] == ' ';
      assert CString(SkipSpaces(t)) != [] ==> CString(SkipSpaces(t))[0] == SkipSpaces(t)[0] != ' ';
    }
  }

  /** The value under key k is not the same on both sides. */
  predicate Lost(k: Option<Key>, d: Fields, h: Header) {
    || (k == Some(ReplyKey) && OrEmpty(d.replyTo) != CString(h.replyTo))
    || (k == Some(TaskKey) && OrEmpty(d.taskId) != CString(h.taskId))
  }

  /** A line that both take leaves them in step exactly when it is kept. */
  lemma LineInStep(line: string, d: Fields, h: Header)
    requires Sync(d, h) && TakeLine(line, d).Some? && FramedLine(line, h).Some?
    requires KeyOf(line).Some? ==> !Present(d, KeyOf(line).value)
    ensures var d', h' := TakeLine(line, d).value, FramedLine(line, h).value;
      && (Kept(line) ==> Sync(d', h'))
      && (Kept(line) || Lost(KeyOf(line), d', h'))
  {
    hide LenValue, StrtolOf, CString, SkipSpaces, WholeNumber;
    TakeLineIs(line, d, h);
    EmptyC();
    match KeyOf(line)
    case None =>
    case Some(VerbKey) => assert line[0] == 'V';
    case Some(LenKey) => LenAgrees(line, h);
    case Some(ReplyKey) => SpaceLedDiffers(line[9..]);
    case Some(TaskKey) => SpaceLedDiffers(line[8..]);
  }

  // ----- all lines ------------------------------------------------------

  ghost predicate Fresh(lines: seq<string>, d: Fields) {
    forall i :: 0 <= i < |lines| && KeyOf(lines[i]).Some? ==> !Present(d, KeyOf(lines[i]).value)
  }

  /** Once a value has been taken in place it stays, and no later line has that header. */
  lemma {:induction false} TakenStays(lines: seq<string>, d: Fields, h: Header, k: Key)
    requires Present(d, k) && TakeAll(lines, d).Some? && FramedAll(lines, h).Some?
    ensures var d', h' := TakeAll(lines, d).value, FramedAll(lines, h).value;
      && (k == ReplyKey ==> d'.replyTo == d.replyTo && h'.replyTo == h.replyTo)
      && (k == TaskKey ==> d'.taskId == d.taskId && h'.taskId == h.taskId)
  {
    hide LenValue, StrtolOf, CString, ValueAfter, WholeNumber;
    if lines != [] {
      TakeLineIs(lines[0], d, h);
      TakenStays(lines[1..], TakeLine(lines[0], d).value, FramedLine(lines[0], h).value, k);
    }
  }

  lemma FreshCons(lines: seq<string>, d: Fields, d': Fields)
    requires lines != [] && forall k :: Present(d', k) <==> Present(d, k) || KeyOf(lines[0]) == Some(k)
    ensures Fresh(lines, d) && NoRepeat(lines) <==>
      (KeyOf(lines[0]).Some? ==> !Present(d, KeyOf(lines[0]).value)) && Fresh(lines[1..], d') && NoRepeat(lines[1..])
  {
    hide KeyOf, Present;
    var tail := lines[1..];
    assert forall i :: 0 < i < |lines| ==> lines[i] == tail[i - 1];
    if Fresh(lines, d) && NoRepeat(lines) {
      forall i | 0 <= i < |tail| && KeyOf(tail[i]).Some? ensures !Present(d', KeyOf(tail[i]).value) {
        assert tail[i] == lines[i + 1];
      }
      forall i, j | 0 <= i < j < |tail| && KeyOf(tail[i]).Some? ensures KeyOf(tail[j]) != KeyOf(tail[i]) {
        assert tail[i] == lines[i + 1] && tail[j] == lines[j + 1];
      }
    }
    if (KeyOf(lines[0]).Some? ==> !Present(d, KeyOf(lines[0]).value)) && Fresh(tail, d') && NoRepeat(tail) {
      forall i | 0 <= i < |lines| && KeyOf(lines[i]).Some? ensures !Present(d, KeyOf(lines[i]).value) {
        if i > 0 { assert !Present(d', KeyOf(tail[i - 1]).value); }
      }
      forall i, j | 0 <= i < j < |lines| && KeyOf(lines[i]).Some? ensures KeyOf(lines[j]) != KeyOf(lines[i]) {
        assert lines[j] == tail[j - 1];
        if i > 0 { assert lines[i] == tail[i - 1]; }
        else if KeyOf(tail[j - 1]).Some? { assert !Present(d', KeyOf(tail[j - 1]).value); }
      }
    }
  }

  lemma AllKeptCons(lines: seq<string>)
    requires lines != []
    ensures AllKept(lines) <==> Kept(lines[0]) && AllKept(lines[1..])
  {
    hide Kept;
    assert forall i :: 0 < i < |lines| ==> lines[i] == lines[1..][i - 1];
    if Kept(lines[0]) && AllKept(lines[1..]) {
      forall i | 0 <= i < |lines| ensures Kept(lines[i]) { if i > 0 { assert Kept(lines[1..][i - 1]); } }
    }
    if AllKept(lines) {
      forall i | 0 <= i < |lines[1..]| ensures Kept(lines[1..][i]) { assert Kept(lines[i + 1]); }
    }
  }

  /** Starting in step, both sides end with the same values exactly when nothing repeats and everything is kept. */
  lemma {:induction false} FoldsAgree(lines: seq<string>, d: Fields, h: Header)
    requires Sync(d, h) && FramedAll(lines, h).Some?
    ensures TakeAll(lines, d).Some? && Same(TakeAll(lines, d).value, FramedAll(lines, h).value)
       <==> Fresh(lines, d) && NoRepeat(lines) && AllKept(lines)
  {
    hide Same, Kept, Present, KeyOf, TakeLine, FramedLine, Fresh, NoRepeat, AllKept;
    if lines == [] {
      Nothing(d, h);
    } else {
      var l, t := lines[0], lines[1..];
      AllKeptCons(lines);
      TakeLineIs(l, d, h);
      if TakeLine(l, d).None? {
        Refused(lines, d);
      } else {
        var d', h' := TakeLine(l, d).value, FramedLine(l, h).value;
        LineInStep(l, d, h);
        FreshCons(lines, d, d');
        if Kept(l) {
          FoldsAgree(t, d', h');
        } else if TakeAll(t, d').Some? {
          TakenStays(t, d', h', KeyOf(l).value);
          Differ(TakeAll(t, d').value, FramedAll(t, h').value, d', h');
        }
      }
    }
  }

  lemma Nothing(d: Fields, h: Header)
    requires Sync(d, h)
    ensures Same(d, h) && Fresh([], d) && NoRepeat([]) && AllKept([])
  {
  }

  lemma Refused(lines: seq<string>, d: Fields)
    requires lines != [] && !((KeyOf(lines[0]).Some? ==> !Present(d, KeyOf(lines[0]).value)) && Kept(lines[0]))
    ensures !(Fresh(lines, d) && AllKept(lines))
  {
    hide Kept, Present, KeyOf;
  }

  lemma Differ(e: Fields, g: Header, d: Fields, h: Header)
    requires (OrEmpty(d.replyTo) != CString(h.replyTo) && e.replyTo == d.replyTo && g.replyTo == h.replyTo)
          || (OrEmpty(d.taskId) != CString(h.taskId) && e.taskId == d.taskId && g.taskId == h.taskId)
    ensures !Same(e, g)
  {
  }

  lemma {:induction false} LenIsSeen(lines: seq<string>, d: Fields, h: Header)
    requires TakeAll(lines, d).Some? && FramedAll(lines, h).Some? && (h.len.Some? ==> d.len.Some?)
    ensures FramedAll(lines, h).value.len.Some? ==> TakeAll(lines, d).value.len.Some?
  {
    hide LenValue, StrtolOf, CString, ValueAfter, WholeNumber;
    if lines != [] {
      TakeLineIs(lines[0], d, h);
      if "LEN " <= lines[0] { assert lines[0][0] == 'L'; }
      assert Present(TakeLine(lines[0], d).value, LenKey) <==> Present(d, LenKey) || KeyOf(lines[0]) == Some(LenKey);
      LenIsSeen(lines[1..], TakeLine(lines[0], d).value, FramedLine(lines[0], h).value);
    }
  }

  // ----- whole buffers --------------------------------------------------

  lemma {:induction false} FramedLinesSplit(s: string, h: Header)
    requires FramedLines(s, h).Framed?
    ensures SplitHead(s).Head? && SplitHead(s).rest == FramedLines(s, h).rest
    ensures FramedAll(SplitHead(s).lines, h) == Some(FramedLines(s, h).h)
    decreases |s|
  {
    hide FramedLine, Join;
    var eol := IndexOf(s, '\n');
    if eol > 0 {
      FramedLinesSplit(s[eol + 1..], FramedLine(s[..eol], h).value);
      var tail := SplitHead(s[eol + 1..]).lines;
      assert ([s[..eol]] + tail)[1..] == tail;
    }
  }

  const H0 := Header(None, [], [])

  /** The parts of a buffer the in-buffer parser accepts: a VERB line, further lines, an empty line, the rest. */
  lemma Parts(buf: string) returns (line: string, tail: seq<string>, rest: string, h: Header)
    requires FramedParse(buf).Some?
    ensures SplitHead(buf) == Head([line] + tail, rest) && "VERB " <= line
    ensures FramedAll(tail, H0) == Some(h) && h.len.Some? && h.len.value <= |rest|
    ensures FramedParse(buf).value ==
      Message(ValueAfter(line, 5), CString(h.replyTo), CString(h.taskId), rest[..h.len.value])
  {
    hide FramedLines, FramedAll, CString, Join;
    var eol := IndexOf(buf, '\n');
    line := buf[..eol];
    FramedLinesSplit(buf[eol + 1..], H0);
    tail, rest, h := SplitHead(buf[eol + 1..]).lines, SplitHead(buf[eol + 1..]).rest, FramedLines(buf[eol + 1..], H0).h;
    assert line[5..] == buf[5..eol];
  }

  /** What the in-place parser makes of the same parts. */
  lemma InPlaceParts(buf: string, all: seq<string>, rest: string)
    requires SplitHead(buf) == Head(all, rest) && all != []
    ensures Decoded(buf) == match TakeAll(all, NO_FIELDS) {
      case None => None
      case Some(d) => if d.verb.None? || (d.len.Some? && d.len.value > |rest|) then None
        else Some(Message(d.verb.value, OrEmpty(d.replyTo), OrEmpty(d.taskId),
                          if d.len.Some? then rest[..d.len.value] else rest)) }
  {
    hide TakeLines, TakeAll, FindSep, Glue, SplitHead, Join;
    JoinIsGlue(all);
    var g := Glue(all);
    assert g + "\n" + "\n" == g + "\n\n";
    assert buf == g + "\n\n" + rest;
    FindSepGlued(all, rest);
    TakeLinesGlued(all, NO_FIELDS);
    assert buf[..|g|] == g;
    assert |buf| - |g| - 2 == |rest|;
    assert forall n :: 0 <= n <= |rest| ==> buf[|g| + 2..|g| + 2 + n] == rest[..n];
    assert rest[..|rest|] == rest;
  }

  /** On a buffer it accepts, parse_framed_in_buf returns what the in-place parser returns if and only if no known
      header repeats and every header line is kept: the verb is not empty, the length is one whole number, and no
      reply-to or task id is led by a space or too long. */
  lemma AgreesExactlyWhenKept(buf: string)
    requires FramedParse(buf).Some?
    ensures SplitHead(buf).Head?
    ensures Decoded(buf) == FramedParse(buf) <==> NoRepeat(SplitHead(buf).lines) && AllKept(SplitHead(buf).lines)
  {
    hide Decoded, FramedParse, TakeLine, TakeAll, FramedAll, NoRepeat, AllKept, Kept, KeyOf, CString, ValueAfter;
    var line, tail, rest, h := Parts(buf);
    var all := [line] + tail;
    InPlaceParts(buf, all, rest);
    FirstLine(line, tail);
    assert all[1..] == tail;
    AllKeptCons(all);
    if ValueAfter(line, 5) != [] {
      var d := NO_FIELDS.(verb := Some(ValueAfter(line, 5)));
      FoldsAgree(tail, d, H0);
      if TakeAll(tail, d).Some? {
        LenIsSeen(tail, d, H0);
        VerbStays(tail, d);
        SameMessage(TakeAll(tail, d).value, h, rest);
      }
    }
  }

  lemma FirstLine(line: string, tail: seq<string>)
    requires "VERB " <= line
    ensures Kept(line) <==> ValueAfter(line, 5) != []
    ensures TakeAll([line] + tail, NO_FIELDS) ==
      if ValueAfter(line, 5) == [] then None else TakeAll(tail, NO_FIELDS.(verb := Some(ValueAfter(line, 5))))
    ensures var d := NO_FIELDS.(verb := Some(ValueAfter(line, 5)));
      Sync(d, H0) && (NoRepeat([line] + tail) <==> Fresh(tail, d) && NoRepeat(tail))
  {
    hide ValueAfter, Kept, CString, NoRepeat;
    EmptyC();
    VerbKept(line);
    var all, d := [line] + tail, NO_FIELDS.(verb := Some(ValueAfter(line, 5)));
    assert all[1..] == tail && all[0] == line;
    FreshCons(all, NO_FIELDS, d);
  }

  lemma VerbKept(line: string)
    requires "VERB " <= line
    ensures Kept(line) <==> ValueAfter(line, 5) != []
  {
  }

  lemma {:induction false} VerbStays(lines: seq<string>, d: Fields)
    requires TakeAll(lines, d).Some? && d.verb.Some?
    ensures TakeAll(lines, d).value.verb == d.verb
  {
    hide LenValue, ValueAfter;
    if lines != [] { VerbStays(lines[1..], TakeLine(lines[0], d).value); }
  }

  /** Equal fields are equal messages, and the other way round when both have a length. */
  lemma SameMessage(d: Fields, h: Header, rest: string)
    requires d.verb.Some? && d.len.Some? && h.len.Some? && h.len.value <= |rest|
    ensures Same(d, h) <==>
      && d.len.value <= |rest|
      && Message(d.verb.value, OrEmpty(d.replyTo), OrEmpty(d.taskId), rest[..d.len.value])
           == Message(d.verb.value, CString(h.replyTo), CString(h.taskId), rest[..h.len.value])
  {
    if d.len.value <= |rest| { assert |rest[..d.len.value]| == d.len.value && |rest[..h.len.value]| == h.len.value; }
  }
}
