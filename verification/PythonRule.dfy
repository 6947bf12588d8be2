/** Which bytes _parse_frame of sdk/python/agent.py accepts, and what it reads from them, said of the header lines. */
module PythonRule {
  import opened Options
  import opened Text
  import opened Wire
  import opened Codecs
  import opened LineRules

  const START := PyHeader([], -1, [], [])

  // ----- strip and int --------------------------------------------------

  ghost predicate AllPyWhite(s: string) { forall i :: 0 <= i < |s| ==> PyWhite(s[i]) }

  /** v is the text without the white space that leads it. */
  ghost predicate Stripped(text: string, v: string) {
    && |v| <= |text| && v == text[|text| - |v|..] && (v != [] ==> !PyWhite(v[0]))
    && forall i :: 0 <= i < |text| - |v| ==> PyWhite(text[i])
  }

  lemma {:induction false} LStripStrips(s: string)
    ensures Stripped(s, LStrip(s))
  {
    if s != [] && PyWhite(s[0]) {
      var t, v := s[1..], LStrip(s);
      LStripStrips(t);
      assert s[|s| - |v|..] == t[|t| - |v|..];
      forall i | 0 < i < |s| - |v| ensures PyWhite(s[i]) { assert s[i] == t[i - 1]; }
    }
  }

  lemma StrippedNotLonger(s: string, v: string, w: string)
    requires Stripped(s, v) && Stripped(s, w)
    ensures |v| <= |w|
  {
    if v != [] { assert v[0] == s[|s| - |v|]; }
  }

  lemma LStripIs(s: string, v: string)
    ensures LStrip(s) == v <==> Stripped(s, v)
  {
    hide LStrip;
    LStripStrips(s);
    if Stripped(s, v) {
      StrippedNotLonger(s, v, LStrip(s));
      StrippedNotLonger(s, LStrip(s), v);
    }
  }

  lemma {:induction false} RStripIs(s: string) returns (c: string)
    ensures AllPyWhite(c) && s == RStrip(s) + c && (RStrip(s) != [] ==> !PyWhite(RStrip(s)[|RStrip(s)| - 1]))
  {
    if s == [] || !PyWhite(s[|s| - 1]) {
      c := [];
    } else {
      var b := RStripIs(s[..|s| - 1]);
      c := b + [s[|s| - 1]];
    }
  }

  lemma {:induction false} RStripOf(s: string, c: string)
    requires AllPyWhite(c) && s != [] && !PyWhite(s[|s| - 1])
    ensures RStrip(s + c) == s
  {
    if c == [] {
      assert s + c == s;
    } else {
      RStripOf(s, c[..|c| - 1]);
      assert (s + c)[..|s + c| - 1] == s + c[..|c| - 1];
    }
  }

  ghost predicate Spells(s: string, a: string, sign: string, ds: string, c: string) {
    && AllPyWhite(a) && AllPyWhite(c) && (sign == "" || sign == "+" || sign == "-")
    && ds != [] && (forall i :: 0 <= i < |ds| ==> IsDigit(ds[i])) && s == a + (sign + ds) + c
  }

  /** White space, a sign or none, digits, white space, and nothing else. */
  ghost predicate Integer(s: string, n: int) {
    exists a, sign, ds, c :: Spells(s, a, sign, ds, c) && n == if sign == "-" then -(Number(ds) as int) else Number(ds)
  }

  lemma SpelledIsRead(s: string, a: string, sign: string, ds: string, c: string)
    requires Spells(s, a, sign, ds, c)
    ensures PyInt(s) == Some(if sign == "-" then -(Number(ds) as int) else Number(ds))
  {
    hide LStrip, RStrip, Number, Digits;
    var t := sign + ds;
    assert s == a + (t + c) && s[|a|..] == t + c && s[..|a|] == a;
    assert t[0] == if sign == "" then ds[0] else sign[0];
    assert t[|t| - 1] == ds[|ds| - 1];
    LStripIs(s, t + c);
    RStripOf(t, c);
    AllDigits(ds);
    assert sign == "" ==> t == ds;
    assert sign != "" ==> t[1..] == ds;
  }

  lemma WhiteBefore(s: string) returns (a: string)
    ensures AllPyWhite(a) && s == a + LStrip(s)
  {
    hide LStrip;
    LStripStrips(s);
    a := s[..|s| - |LStrip(s)|];
  }

  lemma Assembled(s: string, a: string, l: string, t: string, c: string, sign: string, ds: string)
    requires s == a + l && l == t + c && t == sign + ds
    ensures s == a + (sign + ds) + c
  {
  }

  lemma ReadIsSpelled(s: string) returns (a: string, sign: string, ds: string, c: string)
    requires PyInt(s).Some?
    ensures Spells(s, a, sign, ds, c)
  {
    hide LStrip, RStrip, Number, Digits, AllPyWhite;
    var t := RStrip(LStrip(s));
    sign := if t[0] == '-' || t[0] == '+' then [t[0]] else "";
    ds := t[|sign|..];
    assert Digits(ds) == ds;
    a := WhiteBefore(s);
    c := RStripIs(LStrip(s));
    Assembled(s, a, LStrip(s), t, c, sign, ds);
  }

  lemma PyIntIs(s: string, n: int)
    ensures PyInt(s) == Some(n) <==> Integer(s, n)
  {
    hide PyInt, Number;
    if PyInt(s).Some? {
      var a, sign, ds, c := ReadIsSpelled(s);
      SpelledIsRead(s, a, sign, ds, c);
    }
    if Integer(s, n) {
      var a, sign, ds, c :|
        Spells(s, a, sign, ds, c) && n == if sign == "-" then -(Number(ds) as int) else Number(ds);
      SpelledIsRead(s, a, sign, ds, c);
    }
  }

  // ----- the fields -----------------------------------------------------

  /** The last line with the word gives the value, without leading white space; no such line, none. */
  ghost predicate FieldIs(lines: seq<string>, word: string, v: string) {
    if NonePasses(lines, Begins(word)) then v == []
    else exists k: nat :: LastAt(lines, Begins(word), k) && Stripped(lines[k][|word|..], v)
  }

  ghost predicate LengthsRead(lines: seq<string>) {
    forall j :: 0 <= j < |lines| && "LEN " <= lines[j] ==> exists n: int :: Integer(lines[j][4..], n)
  }

  /** Every LEN line is a number, and the last gives the length; no such line, none. */
  ghost predicate LenIs(lines: seq<string>, n: int) {
    LengthsRead(lines) &&
    if NonePasses(lines, Begins("LEN ")) then n == -1
    else exists k: nat :: LastAt(lines, Begins("LEN "), k) && Integer(lines[k][4..], n)
  }

  ghost predicate HeaderIs(lines: seq<string>, p: PyHeader) {
    && FieldIs(lines, "VERB ", p.verb) && LenIs(lines, p.len)
    && FieldIs(lines, "REPLY-TO ", p.replyTo) && FieldIs(lines, "TASK-ID ", p.taskId)
  }

  // ----- one more line --------------------------------------------------

  lemma {:induction false} PyLinesSnoc(lines: seq<string>, last: string, p: PyHeader)
    ensures PyLines(lines + [last], p) ==
      if PyLines(lines, p).None? then None else PyLine(last, PyLines(lines, p).value)
  {
    hide PyLine;
    if lines == [] {
      assert [last][1..] == [];
    } else {
      assert (lines + [last])[1..] == lines[1..] + [last];
      var next := PyLine(lines[0], p);
      if next.Some? { PyLinesSnoc(lines[1..], last, next.value); }
    }
  }

  lemma FieldSnoc(lines: seq<string>, last: string, word: string, v: string)
    requires if word <= last then Stripped(last[|word|..], v) else FieldIs(lines, word, v)
    ensures FieldIs(lines + [last], word, v)
  {
    hide Stripped;
    var all := lines + [last];
    LastSnoc(lines, last, Begins(word));
    if word <= last {
      assert all[|lines|] == last && LastAt(all, Begins(word), |lines|);
    } else if !NonePasses(lines, Begins(word)) {
      var k: nat :| LastAt(lines, Begins(word), k) && Stripped(lines[k][|word|..], v);
      assert LastAt(all, Begins(word), k) && all[k] == lines[k];
    }
  }

  lemma LenSnoc(lines: seq<string>, last: string, n: int)
    requires LengthsRead(lines)
    requires if "LEN " <= last then Integer(last[4..], n) else LenIs(lines, n)
    ensures LenIs(lines + [last], n)
  {
    hide Integer;
    var all := lines + [last];
    LastSnoc(lines, last, Begins("LEN "));
    assert forall j :: 0 <= j < |all| ==> all[j] == if j < |lines| then lines[j] else last;
    if "LEN " <= last {
      assert LastAt(all, Begins("LEN "), |lines|);
    } else if !NonePasses(lines, Begins("LEN ")) {
      var k: nat :| LastAt(lines, Begins("LEN "), k) && Integer(lines[k][4..], n);
      assert LastAt(all, Begins("LEN "), k) && all[k] == lines[k];
    }
  }

  /** What the loop takes from a line. */
  lemma ReadsStripped(line: string)
    ensures "VERB " <= line ==> Stripped(line[5..], LStrip(line[5..]))
    ensures "REPLY-TO " <= line ==> Stripped(line[9..], LStrip(line[9..]))
    ensures "TASK-ID " <= line ==> Stripped(line[8..], LStrip(line[8..]))
    ensures "LEN " <= line ==> forall n: int :: PyInt(line[4..]) == Some(n) <==> Integer(line[4..], n)
  {
    hide Stripped, LStrip, PyInt, Integer;
    if "VERB " <= line { LStripIs(line[5..], LStrip(line[5..])); }
    if "REPLY-TO " <= line { LStripIs(line[9..], LStrip(line[9..])); }
    if "TASK-ID " <= line { LStripIs(line[8..], LStrip(line[8..])); }
    if "LEN " <= line {
      forall n: int ensures PyInt(line[4..]) == Some(n) <==> Integer(line[4..], n) { PyIntIs(line[4..], n); }
    }
  }

  /** The fold over the lines fails exactly on a LEN that is no number, and otherwise computes the header. */
  lemma {:induction false} PyLinesRead(lines: seq<string>)
    ensures PyLines(lines, START).Some? <==> LengthsRead(lines)
    ensures PyLines(lines, START).Some? ==> HeaderIs(lines, PyLines(lines, START).value)
  {
    hide LStrip, PyInt, FieldIs, LenIs, Stripped, Integer;
    if lines == [] {
      NothingRead();
    } else {
      var front, last := lines[..|lines| - 1], lines[|lines| - 1];
      assert lines == front + [last];
      PyLinesRead(front);
      PyLinesSnoc(front, last, START);
      WordsDiffer(last);
      ReadsStripped(last);
      var lastReads := "LEN " <= last ==> exists n: int :: Integer(last[4..], n);
      assert LengthsRead(lines) <==> LengthsRead(front) && lastReads by {
        assert forall j :: 0 <= j < |front| ==> lines[j] == front[j];
      }
      if LengthsRead(lines) {
        var p := PyLines(lines, START).value;
        FieldSnoc(front, last, "VERB ", p.verb);
        FieldSnoc(front, last, "REPLY-TO ", p.replyTo);
        FieldSnoc(front, last, "TASK-ID ", p.taskId);
        LenSnoc(front, last, p.len);
      }
    }
  }

  lemma NothingRead()
    ensures HeaderIs([], START)
  {
  }

  lemma FieldIsOne(lines: seq<string>, word: string, v: string, w: string)
    requires FieldIs(lines, word, v) && FieldIs(lines, word, w)
    ensures v == w
  {
    hide Stripped, LStrip;
    if !NonePasses(lines, Begins(word)) {
      var j: nat :| LastAt(lines, Begins(word), j) && Stripped(lines[j][|word|..], v);
      var k: nat :| LastAt(lines, Begins(word), k) && Stripped(lines[k][|word|..], w);
      LastIsOne(lines, Begins(word), j, k);
      LStripIs(lines[j][|word|..], v);
      LStripIs(lines[j][|word|..], w);
    }
  }

  lemma LenIsOne(lines: seq<string>, m: int, n: int)
    requires LenIs(lines, m) && LenIs(lines, n)
    ensures m == n
  {
    hide Integer, PyInt, LengthsRead;
    if !NonePasses(lines, Begins("LEN ")) {
      var j: nat :| LastAt(lines, Begins("LEN "), j) && Integer(lines[j][4..], m);
      var k: nat :| LastAt(lines, Begins("LEN "), k) && Integer(lines[k][4..], n);
      LastIsOne(lines, Begins("LEN "), j, k);
      PyIntIs(lines[j][4..], m);
      PyIntIs(lines[j][4..], n);
    }
  }

  lemma HeaderIsOne(lines: seq<string>, p: PyHeader)
    ensures PyLines(lines, START) == Some(p) <==> HeaderIs(lines, p)
  {
    hide FieldIs, PyLines;
    PyLinesRead(lines);
    if HeaderIs(lines, p) {
      var q := PyLines(lines, START).value;
      FieldIsOne(lines, "VERB ", p.verb, q.verb);
      FieldIsOne(lines, "REPLY-TO ", p.replyTo, q.replyTo);
      FieldIsOne(lines, "TASK-ID ", p.taskId, q.taskId);
      LenIsOne(lines, p.len, q.len);
    }
  }

  /** The parser takes a message of `used` bytes off the front of the buffer exactly when there is a first empty line,
      the lines before it give a verb that is not empty, a length and the other two fields, and the payload is the bytes
      of that length after it. */
  lemma PyParseIsTheRule(buf: string, m: Message, used: nat)
    ensures PyParse(buf) == Some((m, used)) <==>
      var sep := FindSep(buf);
      && sep < |buf| && sep + 2 <= used <= |buf|
      && HeaderIs(Lines(buf[..sep]), PyHeader(m.verb, used - sep - 2, m.replyTo, m.taskId))
      && m.verb != [] && m.payload == buf[sep + 2..used]
  {
    hide HeaderIs, PyLines, FindSep, Lines;
    var sep := FindSep(buf);
    if sep < |buf| {
      var lines := Lines(buf[..sep]);
      HeaderIsOne(lines, PyHeader(m.verb, used - sep - 2, m.replyTo, m.taskId));
    }
  }
}
