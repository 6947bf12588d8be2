/** Which bytes the two C parsers of the message format accept, and what they read from them, said of the header lines:
    parse_inplace in ipc.c and parse_framed_in_buf in common.c. */
module WireRule {
  import opened AgentNames
  import opened Options
  import opened Text
  import opened Wire
  import opened Codecs
  import opened LineRules
  import IpcStream

  // ----- a length -------------------------------------------------------

  ghost predicate AllWhite(s: string) { forall i :: 0 <= i < |s| ==> White(s[i]) }

  ghost predicate AllDigit(s: string) { forall i :: 0 <= i < |s| ==> IsDigit(s[i]) }

  ghost predicate Spelled(s: string, a: string, sign: string, ds: string) {
    AllWhite(a) && (sign == "" || sign == "+" || sign == "-") && ds != [] && AllDigit(ds) && s == a + sign + ds
  }

  /** White space, a sign or none, and digits to the end; the number is at most the cap, and nothing is below zero. */
  ghost predicate Length(s: string, n: nat) {
    n <= IPC_MSG_HARD_CAP &&
    exists a, sign, ds :: Spelled(s, a, sign, ds) && Number(ds) == n && (sign == "-" ==> n == 0)
  }

  lemma {:induction false} SkipWhiteIs(a: string, s: string)
    requires AllWhite(a) && s != [] && !White(s[0])
    ensures SkipWhite(a + s) == s
  {
    if a == [] {
      assert a + s == s;
    } else {
      SkipWhiteIs(a[1..], s);
      assert (a + s)[1..] == a[1..] + s;
    }
  }

  lemma SpelledIsRead(s: string, a: string, sign: string, ds: string)
    requires Spelled(s, a, sign, ds)
    ensures var n := if sign == "-" then -(Number(ds) as int) else Number(ds);
      StrtolOf(s) == Strtol(n, |s|, n > LONG_MAX || n < -LONG_MAX - 1)
  {
    hide SkipWhite, Number, Digits;
    var w := sign + ds;
    assert s == a + w && (sign == "" ==> w == ds);
    SkipWhiteIs(a, w);
    AllDigits(ds);
    assert sign != "" ==> w[0] == sign[0] && w[1..] == ds;
  }

  ghost predicate Leads(s: string, a: string, sign: string, ds: string, more: string) {
    Spelled(a + sign + ds, a, sign, ds) && s == a + sign + ds + more && (more != [] ==> !IsDigit(more[0]))
  }

  function SignOf(w: string): string { if w != [] && (w[0] == '-' || w[0] == '+') then [w[0]] else "" }

  /** How the number at the beginning of a text was found. */
  lemma StrtolParts(s: string)
    ensures var w := SkipWhite(s);
      |SignOf(w)| <= |w| <= |s| &&
      var ds := Digits(w[|SignOf(w)|..]);
      if ds == [] then StrtolOf(s) == Strtol(0, 0, false) else StrtolOf(s).used == |s| - |w| + |SignOf(w)| + |ds|
  {
    hide SkipWhite, Digits, Number;
    SkipWhiteIsSuffix(s);
    assert SkipWhite(s)[0..] == SkipWhite(s);
  }

  lemma WhiteBefore(s: string) returns (a: string)
    ensures AllWhite(a) && s == a + SkipWhite(s)
  {
    hide SkipWhite;
    SkipWhiteIsSuffix(s);
    a := s[..|s| - |SkipWhite(s)|];
  }

  lemma DigitsBefore(t: string) returns (more: string)
    ensures t == Digits(t) + more && AllDigit(Digits(t)) && (more != [] ==> !IsDigit(more[0]))
  {
    hide Digits;
    DigitsIsPrefix(t);
    more := t[|Digits(t)|..];
  }

  lemma Assembled(s: string, a: string, w: string, sign: string, t: string, ds: string, more: string)
    requires s == a + w && w == sign + t && t == ds + more
    ensures s == a + sign + ds + more
  {
  }

  lemma ReadIsLed(s: string) returns (a: string, sign: string, ds: string, more: string)
    requires StrtolOf(s).used > 0
    ensures Leads(s, a, sign, ds, more) && StrtolOf(s).used == |a| + |sign| + |ds|
  {
    hide StrtolOf, SkipWhite, Digits, AllWhite, AllDigit;
    StrtolParts(s);
    var w := SkipWhite(s);
    sign := SignOf(w);
    var t := w[|sign|..];
    ds := Digits(t);
    a := WhiteBefore(s);
    more := DigitsBefore(t);
    assert w == sign + t;
    Assembled(s, a, w, sign, t, ds, more);
  }

  lemma ReadIsSpelled(s: string) returns (a: string, sign: string, ds: string)
    requires StrtolOf(s).used == |s| && s != []
    ensures Spelled(s, a, sign, ds)
  {
    hide StrtolOf, Spelled;
    var more;
    a, sign, ds, more := ReadIsLed(s);
    assert s == a + sign + ds;
  }

  lemma LenValueIs(s: string, n: nat)
    ensures LenValue(s) == Some(n) <==> Length(s, n)
  {
    hide StrtolOf, Number;
    if Length(s, n) {
      var a, sign, ds :| Spelled(s, a, sign, ds) && Number(ds) == n && (sign == "-" ==> n == 0);
      SpelledIsRead(s, a, sign, ds);
    }
    if LenValue(s) == Some(n) {
      var a, sign, ds := ReadIsSpelled(s);
      SpelledIsRead(s, a, sign, ds);
    }
  }

  // ----- parse_inplace --------------------------------------------------

  predicate Once(lines: seq<string>, word: string) {
    forall i, j :: 0 <= i < j < |lines| && word <= lines[i] ==> !(word <= lines[j])
  }

  /** No known header twice, no empty verb, no LEN that is not a length. */
  ghost predicate Orderly(lines: seq<string>) {
    && Once(lines, "VERB ") && Once(lines, "LEN ") && Once(lines, "REPLY-TO ") && Once(lines, "TASK-ID ")
    && (forall j :: 0 <= j < |lines| && "VERB " <= lines[j] ==> ValueAfter(lines[j], 5) != [])
    && (forall j :: 0 <= j < |lines| && "LEN " <= lines[j] ==> exists n: nat :: Length(ValueAfter(lines[j], 4), n))
  }

  ghost predicate FieldIs(lines: seq<string>, word: string, o: Option<string>) {
    if NonePasses(lines, Begins(word)) then o == None
    else exists k: nat :: LastAt(lines, Begins(word), k) && o == Some(ValueAfter(lines[k], |word|))
  }

  ghost predicate LenIs(lines: seq<string>, o: Option<nat>) {
    if NonePasses(lines, Begins("LEN ")) then o == None
    else exists k: nat :: LastAt(lines, Begins("LEN "), k) && o.Some? && Length(ValueAfter(lines[k], 4), o.value)
  }

  ghost predicate FieldsAre(lines: seq<string>, d: Fields) {
    && FieldIs(lines, "VERB ", d.verb) && LenIs(lines, d.len)
    && FieldIs(lines, "REPLY-TO ", d.replyTo) && FieldIs(lines, "TASK-ID ", d.taskId)
  }

  lemma {:induction false} TakeLinesAre(s: string, d: Fields)
    ensures TakeLines(s, d) == TakeAll(Lines(s), d)
    decreases |s|
  {
    hide TakeLine, IndexOf;
    var eol := IndexOf(s, '\n');
    if s == [] {
      TakeOne([], d);
      BlankIsSkipped(d);
    } else if eol == |s| {
      assert s[..eol] == s;
      TakeOne(s, d);
    } else {
      assert Lines(s)[1..] == Lines(s[eol + 1..]);
      if TakeLine(s[..eol], d).Some? { TakeLinesAre(s[eol + 1..], TakeLine(s[..eol], d).value); }
    }
  }

  lemma BlankIsSkipped(d: Fields)
    ensures TakeLine([], d) == Some(d)
  {
  }

  lemma {:induction false} TakeAllSnoc(lines: seq<string>, last: string, d: Fields)
    ensures TakeAll(lines + [last], d) ==
      if TakeAll(lines, d).None? then None else TakeLine(last, TakeAll(lines, d).value)
  {
    hide TakeLine;
    if lines == [] {
      assert [last][1..] == [];
    } else {
      assert (lines + [last])[1..] == lines[1..] + [last];
      var next := TakeLine(lines[0], d);
      if next.Some? { TakeAllSnoc(lines[1..], last, next.value); }
    }
  }

  lemma FieldSnoc(lines: seq<string>, last: string, word: string, o: Option<string>)
    requires if word <= last then o == Some(ValueAfter(last, |word|)) else FieldIs(lines, word, o)
    ensures FieldIs(lines + [last], word, o)
  {
    hide ValueAfter;
    var all := lines + [last];
    LastSnoc(lines, last, Begins(word));
    if word <= last {
      assert all[|lines|] == last && LastAt(all, Begins(word), |lines|);
    } else if !NonePasses(lines, Begins(word)) {
      var k: nat :| LastAt(lines, Begins(word), k) && o == Some(ValueAfter(lines[k], |word|));
      assert LastAt(all, Begins(word), k) && all[k] == lines[k];
    }
  }

  lemma LenSnoc(lines: seq<string>, last: string, o: Option<nat>)
    requires if "LEN " <= last then o.Some? && Length(ValueAfter(last, 4), o.value) else LenIs(lines, o)
    ensures LenIs(lines + [last], o)
  {
    hide ValueAfter, Length;
    var all := lines + [last];
    LastSnoc(lines, last, Begins("LEN "));
    if "LEN " <= last {
      assert all[|lines|] == last && LastAt(all, Begins("LEN "), |lines|);
    } else if !NonePasses(lines, Begins("LEN ")) {
      var k: nat :| LastAt(lines, Begins("LEN "), k) && o.Some? && Length(ValueAfter(lines[k], 4), o.value);
      assert LastAt(all, Begins("LEN "), k) && all[k] == lines[k];
    }
  }

  lemma OnceSnoc(lines: seq<string>, last: string, word: string)
    ensures Once(lines + [last], word) <==> Once(lines, word) && (word <= last ==> NonePasses(lines, Begins(word)))
  {
    var all := lines + [last];
    assert all[|lines|] == last && forall j :: 0 <= j < |lines| ==> all[j] == lines[j];
    if Once(all, word) {
      forall i, j | 0 <= i < j < |lines| && word <= lines[i] ensures !(word <= lines[j]) {
        assert word <= all[i];
      }
      forall j | 0 <= j < |lines| && word <= last ensures !Passes(lines[j], Begins(word)) {
        assert word <= all[|lines|] && !(word <= all[j]);
      }
    }
  }

  /** What the line must be for the lines to stay in order. */
  ghost predicate Adds(lines: seq<string>, last: string) {
    && ("VERB " <= last ==> NonePasses(lines, Begins("VERB ")) && ValueAfter(last, 5) != [])
    && ("LEN " <= last ==> NonePasses(lines, Begins("LEN ")) && exists n: nat :: Length(ValueAfter(last, 4), n))
    && ("REPLY-TO " <= last ==> NonePasses(lines, Begins("REPLY-TO ")))
    && ("TASK-ID " <= last ==> NonePasses(lines, Begins("TASK-ID ")))
  }

  lemma OrderlySnoc(lines: seq<string>, last: string)
    ensures Orderly(lines + [last]) <==> Orderly(lines) && Adds(lines, last)
  {
    hide ValueAfter, Length, Once, NonePasses;
    var all := lines + [last];
    OnceSnoc(lines, last, "VERB ");
    OnceSnoc(lines, last, "LEN ");
    OnceSnoc(lines, last, "REPLY-TO ");
    OnceSnoc(lines, last, "TASK-ID ");
    assert all[|lines|] == last && forall j :: 0 <= j < |lines| ==> all[j] == lines[j];
  }

  lemma TakeLineAdds(lines: seq<string>, last: string, d: Fields)
    requires FieldsAre(lines, d)
    ensures TakeLine(last, d).Some? <==> Adds(lines, last)
    ensures TakeLine(last, d).Some? ==> FieldsAre(lines + [last], TakeLine(last, d).value)
  {
    hide ValueAfter, Length, LenValue, NonePasses, LastAt;
    WordsDiffer(last);
    forall n: nat, s ensures LenValue(s) == Some(n) <==> Length(s, n) { LenValueIs(s, n); }
    assert TakeLine(last, d).Some? <==> Adds(lines, last);
    if TakeLine(last, d).Some? {
      var e := TakeLine(last, d).value;
      FieldSnoc(lines, last, "VERB ", e.verb);
      FieldSnoc(lines, last, "REPLY-TO ", e.replyTo);
      FieldSnoc(lines, last, "TASK-ID ", e.taskId);
      LenSnoc(lines, last, e.len);
    }
  }

  lemma {:induction false} TakeAllReads(lines: seq<string>)
    ensures TakeAll(lines, NO_FIELDS).Some? <==> Orderly(lines)
    ensures TakeAll(lines, NO_FIELDS).Some? ==> FieldsAre(lines, TakeAll(lines, NO_FIELDS).value)
  {
    hide Orderly, FieldsAre, TakeLine, Adds;
    if lines == [] {
      NothingRead();
    } else {
      var front, last := lines[..|lines| - 1], lines[|lines| - 1];
      assert lines == front + [last];
      TakeAllReads(front);
      TakeAllSnoc(front, last, NO_FIELDS);
      OrderlySnoc(front, last);
      if Orderly(front) { TakeLineAdds(front, last, TakeAll(front, NO_FIELDS).value); }
    }
  }

  lemma NothingRead()
    ensures Orderly([]) && FieldsAre([], NO_FIELDS)
  {
  }

  lemma FieldIsOne(lines: seq<string>, word: string, o: Option<string>, p: Option<string>)
    requires FieldIs(lines, word, o) && FieldIs(lines, word, p)
    ensures o == p
  {
    hide ValueAfter;
    if !NonePasses(lines, Begins(word)) {
      var j: nat :| LastAt(lines, Begins(word), j) && o == Some(ValueAfter(lines[j], |word|));
      var k: nat :| LastAt(lines, Begins(word), k) && p == Some(ValueAfter(lines[k], |word|));
      LastIsOne(lines, Begins(word), j, k);
    }
  }

  lemma LenIsOne(lines: seq<string>, o: Option<nat>, p: Option<nat>)
    requires LenIs(lines, o) && LenIs(lines, p)
    ensures o == p
  {
    hide ValueAfter, Length;
    if !NonePasses(lines, Begins("LEN ")) {
      var j: nat :| LastAt(lines, Begins("LEN "), j) && o.Some? && Length(ValueAfter(lines[j], 4), o.value);
      var k: nat :| LastAt(lines, Begins("LEN "), k) && p.Some? && Length(ValueAfter(lines[k], 4), p.value);
      LastIsOne(lines, Begins("LEN "), j, k);
      LenValueIs(ValueAfter(lines[j], 4), o.value);
      LenValueIs(ValueAfter(lines[j], 4), p.value);
    }
  }

  lemma FieldsAreOne(lines: seq<string>, d: Fields)
    ensures TakeAll(lines, NO_FIELDS) == Some(d) <==> Orderly(lines) && FieldsAre(lines, d)
  {
    hide Orderly, FieldIs, LenIs, TakeAll;
    TakeAllReads(lines);
    if Orderly(lines) && FieldsAre(lines, d) {
      var e := TakeAll(lines, NO_FIELDS).value;
      FieldIsOne(lines, "VERB ", d.verb, e.verb);
      FieldIsOne(lines, "REPLY-TO ", d.replyTo, e.replyTo);
      FieldIsOne(lines, "TASK-ID ", d.taskId, e.taskId);
      LenIsOne(lines, d.len, e.len);
    }
  }

  /** The message these fields make with the bytes after the empty line: all of them, or as many as LEN says. */
  predicate Filled(buf: string, sep: nat, d: Fields, m: Message)
    requires sep + 2 <= |buf|
  {
    var len := if d.len.Some? then d.len.value else |buf| - sep - 2;
    && d.verb == Some(m.verb) && len <= |buf| - sep - 2
    && m.replyTo == (if d.replyTo.Some? then d.replyTo.value else [])
    && m.taskId == (if d.taskId.Some? then d.taskId.value else [])
    && m.payload == buf[sep + 2..sep + 2 + len]
  }

  lemma FinishIs(buf: string, sep: nat, d: Fields, m: Message)
    requires sep == FindSep(buf) && sep < |buf| && TakeLines(buf[..sep], NO_FIELDS) == Some(d)
    ensures Decoded(buf) == Some(m) <==> Filled(buf, sep, d, m)
  {
    hide FindSep, TakeLines;
  }

  /** parse_inplace hands out a message exactly when there is a first empty line, the lines before it are in order and
      name a verb, and the payload, which is as long as LEN says and otherwise all the rest, is there. */
  lemma ParseIsTheRule(buf: string, m: Message)
    ensures Decoded(buf) == Some(m) <==>
      var sep := FindSep(buf);
      && sep < |buf| && Orderly(Lines(buf[..sep]))
      && exists d :: FieldsAre(Lines(buf[..sep]), d) && Filled(buf, sep, d, m)
  {
    hide FieldsAre, Orderly, Lines, FindSep, TakeLines, TakeAll, Filled;
    var sep := FindSep(buf);
    if sep < |buf| {
      var lines := Lines(buf[..sep]);
      TakeLinesAre(buf[..sep], NO_FIELDS);
      forall d ensures TakeAll(lines, NO_FIELDS) == Some(d) <==> Orderly(lines) && FieldsAre(lines, d) {
        FieldsAreOne(lines, d);
      }
      if TakeAll(lines, NO_FIELDS).Some? {
        FinishIs(buf, sep, TakeAll(lines, NO_FIELDS).value, m);
      } else {
        TakeAllReads(lines);
      }
    }
  }

  // ----- parse_framed_in_buf --------------------------------------------

  function Signed(sign: string, ds: string): int
    requires AllDigit(ds)
  {
    if sign == "-" then -(Number(ds) as int) else Number(ds)
  }

  /** The number a text begins with, whatever follows it, and zero if it begins with none. */
  ghost predicate Leading(s: string, n: int) {
    if exists a, sign, ds, more :: Leads(s, a, sign, ds, more)
    then exists a, sign, ds, more :: Leads(s, a, sign, ds, more) && n == Signed(sign, ds)
    else n == 0
  }

  lemma {:induction false} DigitsOfPrefix(ds: string, more: string)
    requires AllDigit(ds) && (more != [] ==> !IsDigit(more[0]))
    ensures Digits(ds + more) == ds
  {
    if ds == [] {
      assert ds + more == more;
    } else {
      DigitsOfPrefix(ds[1..], more);
      assert (ds + more)[1..] == ds[1..] + more;
    }
  }

  lemma LeadsIsRead(s: string, a: string, sign: string, ds: string, more: string)
    requires Leads(s, a, sign, ds, more)
    ensures StrtolOf(s).used > 0 && StrtolOf(s).value == Signed(sign, ds)
  {
    hide SkipWhite, Number, Digits;
    var w := sign + (ds + more);
    assert s == a + w && (sign == "" ==> w == ds + more);
    assert w[0] == if sign == "" then ds[0] else sign[0];
    SkipWhiteIs(a, w);
    DigitsOfPrefix(ds, more);
    assert sign != "" ==> w[1..] == ds + more;
  }

  lemma LeadingIs(s: string, n: int)
    ensures StrtolOf(s).value == n <==> Leading(s, n)
  {
    hide StrtolOf, Number;
    if a, sign, ds, more :| Leads(s, a, sign, ds, more) {
      forall a, sign, ds, more | Leads(s, a, sign, ds, more) ensures StrtolOf(s).value == Signed(sign, ds) {
        LeadsIsRead(s, a, sign, ds, more);
      }
    } else {
      if StrtolOf(s).used > 0 { var a, sign, ds, more := ReadIsLed(s); }
      StrtolParts(s);
    }
  }

  /** A LEN line as this parser takes it: short, and beginning with a number in range, or with none. */
  ghost predicate FramedLen(line: string, n: int)
    requires "LEN " <= line
  {
    |line| - 4 < 32 && 0 <= n <= MAX_PAYLOAD && Leading(CString(line[4..]), n)
  }

  ghost predicate LengthsRead(lines: seq<string>) {
    forall j :: 0 <= j < |lines| && "LEN " <= lines[j] ==> exists n: int :: FramedLen(lines[j], n)
  }

  const REPLY := ShortOrSpaced("REPLY-TO ", MAX_NAME)
  const TASK := Short("TASK-ID ", MAX_TASK_ID)

  /** The last REPLY-TO that is short enough or led by a space; the latter empties the field. */
  ghost predicate ReplyIs(lines: seq<string>, v: string) {
    if NonePasses(lines, REPLY) then v == []
    else exists k: nat :: LastAt(lines, REPLY, k) && v == ReplyOf(lines[k])
  }

  function ReplyOf(line: string): string
    requires "REPLY-TO " <= line
  {
    if |line| > 9 && line[9] == ' ' then [] else line[9..]
  }

  /** The last TASK-ID that is short enough, with any spaces that lead it. */
  ghost predicate TaskIs(lines: seq<string>, v: string) {
    if NonePasses(lines, TASK) then v == []
    else exists k: nat :: LastAt(lines, TASK, k) && v == lines[k][8..]
  }

  ghost predicate FramedLenIs(lines: seq<string>, o: Option<nat>) {
    if NonePasses(lines, Begins("LEN ")) then o == None
    else exists k: nat :: LastAt(lines, Begins("LEN "), k) && o.Some? && FramedLen(lines[k], o.value)
  }

  ghost predicate HeaderIs(lines: seq<string>, h: Header) {
    FramedLenIs(lines, h.len) && ReplyIs(lines, h.replyTo) && TaskIs(lines, h.taskId)
  }

  lemma {:induction false} FramedAllSnoc(lines: seq<string>, last: string, h: Header)
    ensures FramedAll(lines + [last], h) ==
      if FramedAll(lines, h).None? then None else FramedLine(last, FramedAll(lines, h).value)
  {
    hide FramedLine;
    if lines == [] {
      assert [last][1..] == [];
    } else {
      assert (lines + [last])[1..] == lines[1..] + [last];
      var next := FramedLine(lines[0], h);
      if next.Some? { FramedAllSnoc(lines[1..], last, next.value); }
    }
  }

  lemma ReplySnoc(lines: seq<string>, last: string, v: string)
    requires if Passes(last, REPLY) then v == ReplyOf(last) else ReplyIs(lines, v)
    ensures ReplyIs(lines + [last], v)
  {
    var all := lines + [last];
    LastSnoc(lines, last, REPLY);
    if Passes(last, REPLY) {
      assert all[|lines|] == last && LastAt(all, REPLY, |lines|);
    } else if !NonePasses(lines, REPLY) {
      var k: nat :| LastAt(lines, REPLY, k) && v == ReplyOf(lines[k]);
      assert LastAt(all, REPLY, k) && all[k] == lines[k];
    }
  }

  lemma TaskSnoc(lines: seq<string>, last: string, v: string)
    requires if Passes(last, TASK) then v == last[8..] else TaskIs(lines, v)
    ensures TaskIs(lines + [last], v)
  {
    var all := lines + [last];
    LastSnoc(lines, last, TASK);
    if Passes(last, TASK) {
      assert all[|lines|] == last && LastAt(all, TASK, |lines|);
    } else if !NonePasses(lines, TASK) {
      var k: nat :| LastAt(lines, TASK, k) && v == lines[k][8..];
      assert LastAt(all, TASK, k) && all[k] == lines[k];
    }
  }

  lemma FramedLenSnoc(lines: seq<string>, last: string, o: Option<nat>)
    requires if "LEN " <= last then o.Some? && FramedLen(last, o.value) else FramedLenIs(lines, o)
    ensures FramedLenIs(lines + [last], o)
  {
    hide FramedLen;
    var all := lines + [last];
    LastSnoc(lines, last, Begins("LEN "));
    if "LEN " <= last {
      assert all[|lines|] == last && LastAt(all, Begins("LEN "), |lines|);
    } else if !NonePasses(lines, Begins("LEN ")) {
      var k: nat :| LastAt(lines, Begins("LEN "), k) && o.Some? && FramedLen(lines[k], o.value);
      assert LastAt(all, Begins("LEN "), k) && all[k] == lines[k];
    }
  }

  /** One line, by what it is. */
  lemma FramedLineIs(line: string, h: Header)
    ensures "LEN " <= line ==>
      && (FramedLine(line, h).Some? <==> exists n: int :: FramedLen(line, n))
      && (FramedLine(line, h).Some? ==>
            && FramedLine(line, h).value == h.(len := FramedLine(line, h).value.len)
            && FramedLine(line, h).value.len.Some? && FramedLen(line, FramedLine(line, h).value.len.value))
    ensures !("LEN " <= line) ==>
      FramedLine(line, h) == Some(h.(replyTo := if Passes(line, REPLY) then ReplyOf(line) else h.replyTo,
                                     taskId := if Passes(line, TASK) then line[8..] else h.taskId))
  {
    hide StrtolOf, CString, Leading;
    WordsDiffer(line);
    if "LEN " <= line {
      var t := CString(line[4..]);
      forall n: int ensures StrtolOf(t).value == n <==> Leading(t, n) { LeadingIs(t, n); }
      RangeIsWide(t);
      if FramedLine(line, h).Some? { assert FramedLen(line, StrtolOf(t).value); }
    }
  }

  lemma RangeIsWide(t: string)
    ensures StrtolOf(t).range ==> StrtolOf(t).value > MAX_PAYLOAD || StrtolOf(t).value < 0
  {
    hide SkipWhite, Digits, Number;
  }

  lemma {:induction false} FramedAllReads(lines: seq<string>)
    ensures FramedAll(lines, Header(None, [], [])).Some? <==> LengthsRead(lines)
    ensures LengthsRead(lines) ==> HeaderIs(lines, FramedAll(lines, Header(None, [], [])).value)
  {
    hide FramedLine, FramedLen, ReplyIs, TaskIs, FramedLenIs, Passes;
    var h0 := Header(None, [], []);
    if lines == [] {
      NoHeader();
    } else {
      var front, last := lines[..|lines| - 1], lines[|lines| - 1];
      assert lines == front + [last];
      FramedAllReads(front);
      FramedAllSnoc(front, last, h0);
      assert LengthsRead(lines) <==> LengthsRead(front) && ("LEN " <= last ==> exists n: int :: FramedLen(last, n)) by {
        assert forall j :: 0 <= j < |front| ==> lines[j] == front[j];
      }
      if LengthsRead(front) {
        var g := FramedAll(front, h0).value;
        FramedLineIs(last, g);
        PassesBegins(last);
        if LengthsRead(lines) {
          var h := FramedAll(lines, h0).value;
          FramedLenSnoc(front, last, h.len);
          ReplySnoc(front, last, h.replyTo);
          TaskSnoc(front, last, h.taskId);
        }
      }
    }
  }

  lemma PassesBegins(line: string)
    ensures "LEN " <= line ==> !Passes(line, REPLY) && !Passes(line, TASK)
  {
    WordsDiffer(line);
  }

  lemma NoHeader()
    ensures HeaderIs([], Header(None, [], []))
  {
  }

  lemma HeaderIsOne(lines: seq<string>, h: Header)
    ensures FramedAll(lines, Header(None, [], [])) == Some(h) <==> LengthsRead(lines) && HeaderIs(lines, h)
  {
    hide FramedAll, FramedLen, LengthsRead;
    FramedAllReads(lines);
    if LengthsRead(lines) && HeaderIs(lines, h) {
      OneHeader(lines, h, FramedAll(lines, Header(None, [], [])).value);
    }
  }

  lemma OneHeader(lines: seq<string>, g: Header, h: Header)
    requires HeaderIs(lines, g) && HeaderIs(lines, h)
    ensures g == h
  {
    hide FramedLen;
    OneReply(lines, g.replyTo, h.replyTo);
    OneTask(lines, g.taskId, h.taskId);
    OneLen(lines, g.len, h.len);
  }

  lemma OneReply(lines: seq<string>, v: string, w: string)
    requires ReplyIs(lines, v) && ReplyIs(lines, w)
    ensures v == w
  {
    if !NonePasses(lines, REPLY) {
      var j: nat :| LastAt(lines, REPLY, j) && v == ReplyOf(lines[j]);
      var k: nat :| LastAt(lines, REPLY, k) && w == ReplyOf(lines[k]);
      LastIsOne(lines, REPLY, j, k);
    }
  }

  lemma OneTask(lines: seq<string>, v: string, w: string)
    requires TaskIs(lines, v) && TaskIs(lines, w)
    ensures v == w
  {
    if !NonePasses(lines, TASK) {
      var j: nat :| LastAt(lines, TASK, j) && v == lines[j][8..];
      var k: nat :| LastAt(lines, TASK, k) && w == lines[k][8..];
      LastIsOne(lines, TASK, j, k);
    }
  }

  lemma OneLen(lines: seq<string>, o: Option<nat>, p: Option<nat>)
    requires FramedLenIs(lines, o) && FramedLenIs(lines, p)
    ensures o == p
  {
    hide Leading;
    if !NonePasses(lines, Begins("LEN ")) {
      var j: nat :| LastAt(lines, Begins("LEN "), j) && o.Some? && FramedLen(lines[j], o.value);
      var k: nat :| LastAt(lines, Begins("LEN "), k) && p.Some? && FramedLen(lines[k], p.value);
      LastIsOne(lines, Begins("LEN "), j, k);
      LeadingIs(CString(lines[j][4..]), o.value);
      LeadingIs(CString(lines[j][4..]), p.value);
    }
  }

  lemma {:induction false} FramedSplits(s: string, h: Header)
    ensures FramedLines(s, h) == match SplitHead(s) {
      case NoHead => Bad
      case Head(lines, rest) =>
        if FramedAll(lines, h).None? then Bad else Framed(FramedAll(lines, h).value, rest)
    }
    decreases |s|
  {
    hide FramedLine, Join;
    var eol := IndexOf(s, '\n');
    if 0 < eol < |s| {
      if FramedLine(s[..eol], h).Some? { FramedSplits(s[eol + 1..], FramedLine(s[..eol], h).value); }
      if SplitHead(s[eol + 1..]).Head? {
        var tail := SplitHead(s[eol + 1..]).lines;
        assert ([s[..eol]] + tail)[1..] == tail;
      }
    }
  }

  /** parse_framed_in_buf returns a message exactly when the lines up to the first empty one begin with a verb of 1 to
      63 bytes, each LEN among the others can be read, there is one, and the last one's payload is there; the last
      REPLY-TO and TASK-ID that fit are its fields. */
  ghost predicate FramedRead(lines: seq<string>, rest: string, m: Message) {
    && lines != [] && "VERB " <= lines[0] && 0 < |SkipSpaces(lines[0][5..])| < MAX_VERB
    && m.verb == CString(SkipSpaces(lines[0][5..]))
    && LengthsRead(lines[1..])
    && exists h :: HeaderIs(lines[1..], h) && h.len.Some? && h.len.value <= |rest|
         && m == Message(m.verb, CString(h.replyTo), CString(h.taskId), rest[..h.len.value])
  }

  /** The parser on the lines before the first empty one. */
  function FramedOf(lines: seq<string>, rest: string): Option<Message> {
    if lines == [] || !("VERB " <= lines[0]) then None
    else
      var v, h := SkipSpaces(lines[0][5..]), FramedAll(lines[1..], Header(None, [], []));
      if |v| == 0 || |v| >= MAX_VERB || h.None? || h.value.len.None? || |rest| < h.value.len.value then None
      else Some(Message(CString(v), CString(h.value.replyTo), CString(h.value.taskId), rest[..h.value.len.value]))
  }

  lemma FramedParseSplits(buf: string)
    ensures FramedParse(buf) == match SplitHead(buf) {
      case NoHead => None
      case Head(lines, rest) => FramedOf(lines, rest) }
  {
    hide FramedLines, FramedAll, CString, Join, SkipSpaces;
    var eol := IndexOf(buf, '\n');
    if 0 < eol < |buf| {
      var s := buf[eol + 1..];
      FramedSplits(s, Header(None, [], []));
      if SplitHead(s).Head? {
        var lines := SplitHead(buf).lines;
        assert lines[0] == buf[..eol] && lines[1..] == SplitHead(s).lines;
        if "VERB " <= lines[0] { assert lines[0][5..] == buf[5..eol]; }
      }
    }
  }

  lemma FramedParseIsTheRule(buf: string, m: Message)
    ensures FramedParse(buf) == Some(m) <==>
      SplitHead(buf).Head? && FramedRead(SplitHead(buf).lines, SplitHead(buf).rest, m)
  {
    hide FramedParse, FramedAll, CString, SplitHead, LengthsRead, HeaderIs, SkipSpaces;
    FramedParseSplits(buf);
    if SplitHead(buf).Head? && SplitHead(buf).lines != [] {
      var tail := SplitHead(buf).lines[1..];
      forall h ensures FramedAll(tail, Header(None, [], [])) == Some(h) <==> LengthsRead(tail) && HeaderIs(tail, h) {
        HeaderIsOne(tail, h);
      }
    }
  }

  // ----- recv_stream_into -----------------------------------------------

  /** The first empty line of the stream ends at e. */
  ghost predicate FirstBlank(s: string, e: nat) {
    IpcStream.BlankEnds(s, e) && forall k: nat :: k < e ==> !IpcStream.BlankEnds(s, k)
  }

  /** The first LEN line starts at i, and the first 31 bytes after the word are a length. */
  ghost predicate FirstLen(head: string, i: nat, n: nat) {
    && IpcStream.LenHere(head, i) && (forall k: nat :: k < i ==> !IpcStream.LenHere(head, k))
    && Length(CString(IpcStream.Upto(IpcStream.RestOfLine(head, i + 4), 31)), n)
  }

  ghost predicate Cut(s: string, cap: nat, e: nat, i: nat, n: nat, total: nat) {
    e <= |s| && FirstBlank(s, e) && e < cap && FirstLen(s[..e], i, n) && total == e + n && total <= cap && total <= |s|
  }

  lemma HeadEndIsFirst(s: string, e: nat)
    ensures IpcStream.HeadEnd(s) == e && e > 0 <==> FirstBlank(s, e)
  {
    hide FindSep;
    var h := IpcStream.HeadEnd(s);
    if FirstBlank(s, e) { IpcStream.HeadEndIs(s, e); }
    if h > 0 { HeadIsBlank(s); }
  }

  lemma HeadIsBlank(s: string)
    requires IpcStream.HeadEnd(s) > 0
    ensures FirstBlank(s, IpcStream.HeadEnd(s))
  {
    if s[0] != '\n' { IpcStream.FindSepFirst(s); }
  }

  lemma NeedIsFirst(head: string, n: nat)
    ensures IpcStream.Need(head) == Some(n) <==> exists i: nat :: FirstLen(head, i, n)
  {
    hide LenValue, CString, Length;
    var i := IpcStream.LenAt(head, 0);
    if i < |head| {
      LenValueIs(CString(IpcStream.Upto(IpcStream.RestOfLine(head, i + 4), 31)), n);
      assert IpcStream.Need(head) == Some(n) ==> FirstLen(head, i, n);
    }
    if k: nat :| FirstLen(head, k, n) { assert k == i; }
  }

  /** One call cuts a frame of `total` bytes off the stream exactly when the header ends inside the buffer, its first
      LEN line has a length, and the payload is there and fits; the peer is gone exactly when nothing is left to
      read. */
  lemma ReceiveIsTheRule(s: string, cap: nat, total: nat)
    ensures IpcStream.Receive(s, cap) == IpcStream.Framed(total) <==>
      exists e: nat, i: nat, n: nat :: Cut(s, cap, e, i, n, total)
    ensures IpcStream.Receive(s, cap) == IpcStream.PeerGone <==> s == [] && cap > 1
  {
    hide FirstLen, FirstBlank;
    var e := IpcStream.HeadEnd(s);
    HeadEndIsFirst(s, e);
    forall k: nat | FirstBlank(s, k) ensures k == e { HeadEndIsFirst(s, k); }
    forall n: nat ensures IpcStream.Need(s[..e]) == Some(n) <==> exists i: nat :: FirstLen(s[..e], i, n) {
      NeedIsFirst(s[..e], n);
    }
    if IpcStream.Receive(s, cap) == IpcStream.Framed(total) {
      var n := IpcStream.Need(s[..e]).value;
      var i: nat :| FirstLen(s[..e], i, n);
      assert Cut(s, cap, e, i, n, total);
    }
    if f: nat, i: nat, n: nat :| Cut(s, cap, f, i, n, total) { assert f == e && IpcStream.Need(s[..e]) == Some(n); }
  }
}
