/** The broker protocol of broker.c: the request parser, the two reply formatters, the pattern matcher. */
module Broker {
  import opened Options
  import opened Text

  const BROKER_MSG_MAX := 512
  const BROKER_CAP_MAX := 128
  const BROKER_TOKEN_LEN := 8
  const BROKER_REASON_MAX := 128
  const MAX_TASK_ID_INLINE := 32

  datatype Key = Verb | Cap | TaskId | Reason | Token

  /** The headers seen so far, with their values: the struct and its `seen` mask in one. */
  type Fields = map<Key, string>

  function Prefix(k: Key): string {
    match k
    case Verb => "VERB "
    case Cap => "CAP "
    case TaskId => "TASK-ID "
    case Reason => "REASON "
    case Token => "TOKEN "
  }

  function Limit(k: Key): nat {
    match k
    case Verb => BROKER_MSG_MAX
    case Cap => BROKER_CAP_MAX
    case TaskId => MAX_TASK_ID_INLINE
    case Reason => BROKER_REASON_MAX
    case Token => BROKER_TOKEN_LEN + 1
  }

  predicate Has(line: string, k: Key) { Prefix(k) <= line }

  function Value(line: string, k: Key): string
    requires Has(line, k)
  {
    SkipSpaces(line[|Prefix(k)|..])
  }

  predicate Fits(k: Key, v: string) {
    if k == Verb then v == "request" || v == "issued" || v == "denied" else 0 < |v| < Limit(k)
  }

  // ----- the parser -----------------------------------------------------

  function KeyOf(line: string): Option<Key> {
    if Has(line, Verb) then Some(Verb)
    else if Has(line, Cap) then Some(Cap)
    else if Has(line, TaskId) then Some(TaskId)
    else if Has(line, Reason) then Some(Reason)
    else if Has(line, Token) then Some(Token)
    else None
  }

  /** One header line: a repeated or ill-sized known header is an error, an unknown one is ignored. */
  function TakeHeader(line: string, d: Fields): Option<Fields> {
    match KeyOf(line)
    case None => Some(d)
    case Some(k) => if k in d || !Fits(k, Value(line, k)) then None else Some(d[k := Value(line, k)])
  }

  predicate Complete(d: Fields) {
    Verb in d && Cap in d && (d[Verb] == "issued" ==> Token in d)
  }

  /** What broker_parse makes of the bytes from its cursor on. */
  function ParseFrom(s: string, d: Fields): Option<Fields>
    decreases |s|
  {
    var eol := IndexOf(s, '\n');
    if eol == |s| then None
    else if eol == 0 then (if Complete(d) then Some(d) else None)
    else match TakeHeader(s[..eol], d)
      case None => None
      case Some(d') => ParseFrom(s[eol + 1..], d')
  }

  function Parse(buf: string): Option<Fields> { ParseFrom(buf, map[]) }

  /** The cursor loop of broker_parse. */
  method ParseBuffer(buf: string) returns (r: Option<Fields>)
    ensures r == Parse(buf)
  {
    hide TakeHeader, Complete, IndexOf;
    var p, out: Fields := 0, map[];
    assert buf[0..] == buf;
    while p < |buf|
      invariant p <= |buf| && Parse(buf) == ParseFrom(buf[p..], out)
    {
      var eol := FindChar(buf, p, '\n');
      if eol == |buf| { return None; }
      if eol == p { return if Complete(out) then Some(out) else None; }
      assert buf[p..][..eol - p] == buf[p..eol];
      assert buf[p..][eol - p + 1..] == buf[eol + 1..];
      var next := TakeHeader(buf[p..eol], out);
      if next.None? { return None; }
      p, out := eol + 1, next.value;
    }
    return None;
  }

  // ----- the grammar it accepts -----------------------------------------

  /** Known headers occur at most once, and each has an admissible value. */
  ghost predicate WellFormed(lines: seq<string>) {
    && (forall i, k :: 0 <= i < |lines| && Has(lines[i], k) ==> Fits(k, Value(lines[i], k)))
    && (forall i, j, k :: 0 <= i < j < |lines| && Has(lines[i], k) ==> !Has(lines[j], k))
  }

  /** d holds exactly the values of the known headers among the lines. */
  ghost predicate Holds(lines: seq<string>, d: Fields) {
    && (forall i, k :: 0 <= i < |lines| && Has(lines[i], k) ==> k in d && d[k] == Value(lines[i], k))
    && (forall k :: k in d ==> exists i :: 0 <= i < |lines| && Has(lines[i], k))
  }

  /** The declarative grammar: header lines, an empty line, anything after it; a verb and a capability are named, and an
      issued reply has a token. */
  ghost predicate Grammar(buf: string, lines: seq<string>, rest: string, d: Fields) {
    && buf == Join(lines) + "\n" + rest && AreLines(lines) && WellFormed(lines) && Holds(lines, d)
    && Verb in d && Cap in d && (d[Verb] == "issued" ==> Token in d)
  }

  /** The admissible values, by their lengths in bytes. */
  lemma FitsExactly(k: Key, v: string)
    ensures Fits(k, v) <==> match k {
      case Verb => v in {"request", "issued", "denied"}
      case Cap => 1 <= |v| <= 127
      case TaskId => 1 <= |v| <= 31
      case Reason => 1 <= |v| <= 127
      case Token => 1 <= |v| <= 8 }
  {
  }

  lemma KeysDiffer(line: string, k: Key, j: Key)
    requires Has(line, k) && Has(line, j)
    ensures k == j
  {
    assert line[0] == Prefix(k)[0] == Prefix(j)[0];
    assert line[1] == Prefix(k)[1] == Prefix(j)[1];
  }

  lemma KeyOfIs(line: string, k: Key)
    ensures KeyOf(line) == Some(k) <==> Has(line, k)
  {
    if KeyOf(line).Some? && Has(line, k) { KeysDiffer(line, k, KeyOf(line).value); }
  }

  /** The lines of a header block, taken one after the other on top of what d holds. */
  function TakeAll(lines: seq<string>, d: Fields): Option<Fields> {
    if lines == [] then Some(d)
    else match TakeHeader(lines[0], d)
      case None => None
      case Some(d') => TakeAll(lines[1..], d')
  }

  lemma {:induction false} ParseFromSplits(s: string, d: Fields)
    ensures ParseFrom(s, d) == match SplitHead(s) {
      case NoHead => None
      case Head(lines, _) => match TakeAll(lines, d) {
        case None => None
        case Some(e) => if Complete(e) then Some(e) else None } }
    decreases |s|
  {
    var eol := IndexOf(s, '\n');
    if 0 < eol < |s| {
      match SplitHead(s[eol + 1..])
      case NoHead =>
        if TakeHeader(s[..eol], d).Some? { ParseFromSplits(s[eol + 1..], TakeHeader(s[..eol], d).value); }
      case Head(lines, rest) =>
        assert ([s[..eol]] + lines)[1..] == lines;
        if TakeHeader(s[..eol], d).Some? { ParseFromSplits(s[eol + 1..], TakeHeader(s[..eol], d).value); }
    }
  }

  /** The lines are well formed, repeat nothing in d, and e is d with their values added. */
  ghost predicate Adds(lines: seq<string>, d: Fields, e: Fields) {
    && WellFormed(lines)
    && (forall i, k :: 0 <= i < |lines| && Has(lines[i], k) ==> k !in d && k in e && e[k] == Value(lines[i], k))
    && (forall k :: k in d ==> k in e && e[k] == d[k])
    && (forall k :: k in e ==> k in d || exists i :: 0 <= i < |lines| && Has(lines[i], k))
  }

  lemma AddsTail(lines: seq<string>, d: Fields, d': Fields, e: Fields)
    requires lines != [] && TakeHeader(lines[0], d) == Some(d') && Adds(lines, d, e)
    ensures Adds(lines[1..], d', e)
  {
    hide Has, Value, Fits, KeyOf;
    forall k ensures KeyOf(lines[0]) == Some(k) <==> Has(lines[0], k) { KeyOfIs(lines[0], k); }
    var tail := lines[1..];
    assert forall i :: 0 <= i < |tail| ==> tail[i] == lines[i + 1];
    forall k | k in e && k !in d' ensures exists i :: 0 <= i < |tail| && Has(tail[i], k) {
      var i :| 0 <= i < |lines| && Has(lines[i], k);
      assert Has(tail[i - 1], k);
    }
  }

  lemma AddsCons(lines: seq<string>, d: Fields, d': Fields, e: Fields)
    requires lines != [] && TakeHeader(lines[0], d) == Some(d') && Adds(lines[1..], d', e)
    ensures Adds(lines, d, e)
  {
    hide Has, Value, Fits, KeyOf;
    forall k ensures KeyOf(lines[0]) == Some(k) <==> Has(lines[0], k) { KeyOfIs(lines[0], k); }
    var tail := lines[1..];
    assert forall i :: 0 < i < |lines| ==> lines[i] == tail[i - 1];
    forall i, k | 0 <= i < |lines| && Has(lines[i], k)
      ensures Fits(k, Value(lines[i], k)) && k !in d && k in e && e[k] == Value(lines[i], k)
    {
      if i > 0 {
        assert Has(tail[i - 1], k) && k !in d';
      } else {
        assert KeyOf(lines[0]) == Some(k);
        assert k in d' && d'[k] == Value(lines[0], k);
      }
    }
    forall i, j, k | 0 <= i < j < |lines| && Has(lines[i], k) ensures !Has(lines[j], k) {
      assert lines[j] == tail[j - 1];
      if i > 0 { assert Has(tail[i - 1], k); } else { assert k in d'; }
    }
    forall k | k in e && k !in d ensures exists i :: 0 <= i < |lines| && Has(lines[i], k) {
      if k in d' {
        assert Has(lines[0], k);
      } else {
        var i :| 0 <= i < |tail| && Has(tail[i], k);
        assert Has(lines[i + 1], k);
      }
    }
  }

  lemma {:induction false} TakeAllAdds(lines: seq<string>, d: Fields, e: Fields)
    ensures TakeAll(lines, d) == Some(e) <==> Adds(lines, d, e)
  {
    if lines == [] {
      assert Adds(lines, d, e) ==> d == e;
    } else {
      match TakeHeader(lines[0], d)
      case None =>
        assert Has(lines[0], KeyOf(lines[0]).value);
      case Some(d') =>
        TakeAllAdds(lines[1..], d', e);
        if Adds(lines, d, e) { AddsTail(lines, d, d', e); }
        if Adds(lines[1..], d', e) { AddsCons(lines, d, d', e); }
    }
  }

  /** broker_parse accepts exactly the grammar, and returns exactly the values in it. */
  lemma ParseIsGrammar(buf: string, d: Fields)
    ensures Parse(buf) == Some(d) <==> exists lines, rest :: Grammar(buf, lines, rest, d)
  {
    if lines, rest :| Grammar(buf, lines, rest, d) { GrammarParses(buf, lines, rest, d); }
    if Parse(buf) == Some(d) { ParsedHasGrammar(buf, d); }
  }

  lemma GrammarParses(buf: string, lines: seq<string>, rest: string, d: Fields)
    requires Grammar(buf, lines, rest, d)
    ensures Parse(buf) == Some(d)
  {
    hide ParseFrom, SplitHead, TakeAll, WellFormed, Has, Value;
    ParseFromSplits(buf, map[]);
    SplitHeadIs(lines, rest);
    TakeAllAdds(lines, map[], d);
  }

  lemma ParsedHasGrammar(buf: string, d: Fields)
    requires Parse(buf) == Some(d)
    ensures var h := SplitHead(buf); h.Head? && Grammar(buf, h.lines, h.rest, d)
  {
    hide ParseFrom, SplitHead, TakeAll, WellFormed, Has, Value;
    ParseFromSplits(buf, map[]);
    TakeAllAdds(SplitHead(buf).lines, map[], d);
  }

  // ----- header order and trailing bytes --------------------------------

  function Count(lines: seq<string>, k: Key): nat {
    if lines == [] then 0 else (if Has(lines[0], k) then 1 else 0) + Count(lines[1..], k)
  }

  lemma {:induction false} CountDrop(lines: seq<string>, k: Key, i: nat)
    requires i < |lines|
    ensures Count(lines, k) == Count(lines[..i] + lines[i + 1..], k) + (if Has(lines[i], k) then 1 else 0)
  {
    var less := lines[..i] + lines[i + 1..];
    if i == 0 {
      assert less == lines[1..];
    } else {
      CountDrop(lines[1..], k, i - 1);
      assert less[1..] == lines[1..][..i - 1] + lines[1..][i..];
    }
  }

  lemma DropMultiset(a: seq<string>, b: seq<string>, i: nat)
    requires a != [] && i < |b| && b[i] == a[0] && multiset(a) == multiset(b)
    ensures multiset(a[1..]) == multiset(b[..i] + b[i + 1..])
  {
    assert a == [a[0]] + a[1..];
    assert b == b[..i] + [b[i]] + b[i + 1..];
    var less := b[..i] + b[i + 1..];
    assert multiset(a) == multiset{a[0]} + multiset(a[1..]);
    assert multiset(b) == multiset(b[..i]) + multiset{a[0]} + multiset(b[i + 1..]) == multiset{a[0]} + multiset(less);
    forall x ensures multiset(a[1..])[x] == multiset(less)[x] {
      assert multiset(a)[x] == multiset{a[0]}[x] + multiset(a[1..])[x];
      assert multiset(b)[x] == multiset{a[0]}[x] + multiset(less)[x];
    }
  }

  lemma {:induction false} CountPermutes(a: seq<string>, b: seq<string>, k: Key)
    requires multiset(a) == multiset(b)
    ensures Count(a, k) == Count(b, k)
  {
    if a == [] {
      assert |multiset(a)| == |multiset(b)|;
    } else {
      assert a[0] in multiset(b);
      var i :| 0 <= i < |b| && b[i] == a[0];
      var less := b[..i] + b[i + 1..];
      DropMultiset(a, b, i);
      CountDrop(b, k, i);
      CountPermutes(a[1..], less, k);
    }
  }

  lemma {:induction false} CountUnique(lines: seq<string>, k: Key)
    ensures Count(lines, k) == 0 <==> forall i :: 0 <= i < |lines| ==> !Has(lines[i], k)
    ensures Count(lines, k) <= 1 <==> forall i, j :: 0 <= i < j < |lines| && Has(lines[i], k) ==> !Has(lines[j], k)
  {
    if lines != [] {
      var tail := lines[1..];
      CountUnique(tail, k);
      assert forall i :: 0 < i < |lines| ==> lines[i] == tail[i - 1];
      if forall i, j :: 0 <= i < j < |lines| && Has(lines[i], k) ==> !Has(lines[j], k) {
        assert forall i, j :: 0 <= i < j < |tail| && Has(tail[i], k) ==> !Has(tail[j], k) by {
          forall i, j | 0 <= i < j < |tail| && Has(tail[i], k) ensures !Has(tail[j], k) {
            assert Has(lines[i + 1], k) && tail[j] == lines[j + 1];
          }
        }
        assert Has(lines[0], k) ==> forall i :: 0 <= i < |tail| ==> !Has(tail[i], k) by {
          if Has(lines[0], k) {
            forall i | 0 <= i < |tail| ensures !Has(tail[i], k) { assert tail[i] == lines[i + 1]; }
          }
        }
      }
    }
  }

  lemma WellFormedPermutes(a: seq<string>, b: seq<string>)
    requires multiset(a) == multiset(b) && WellFormed(a)
    ensures WellFormed(b)
  {
    forall i, k | 0 <= i < |b| && Has(b[i], k) ensures Fits(k, Value(b[i], k)) {
      assert b[i] in multiset(a);
      var j :| 0 <= j < |a| && a[j] == b[i];
    }
    forall i, j, k | 0 <= i < j < |b| && Has(b[i], k) ensures !Has(b[j], k) {
      CountUnique(a, k);
      CountUnique(b, k);
      CountPermutes(a, b, k);
    }
  }

  lemma HoldsPermutes(a: seq<string>, b: seq<string>, d: Fields)
    requires multiset(a) == multiset(b) && Holds(a, d)
    ensures Holds(b, d)
  {
    forall i, k | 0 <= i < |b| && Has(b[i], k) ensures k in d && d[k] == Value(b[i], k) {
      assert b[i] in multiset(a);
      var j :| 0 <= j < |a| && a[j] == b[i];
    }
    forall k | k in d ensures exists i :: 0 <= i < |b| && Has(b[i], k) {
      var j :| 0 <= j < |a| && Has(a[j], k);
      assert a[j] in multiset(b);
      var i :| 0 <= i < |b| && b[i] == a[j];
    }
  }

  /** Reordering the header lines, and replacing everything after the empty line, changes nothing. */
  lemma OrderAndTrailerDoNotMatter(a: seq<string>, b: seq<string>, r: string, r': string)
    requires AreLines(a) && multiset(a) == multiset(b)
    ensures Parse(Join(a) + "\n" + r) == Parse(Join(b) + "\n" + r')
  {
    forall i | 0 <= i < |b| ensures b[i] != [] && '\n' !in b[i] {
      assert b[i] in multiset(a);
      var j :| 0 <= j < |a| && a[j] == b[i];
    }
    var p, q := Join(a) + "\n" + r, Join(b) + "\n" + r';
    if Parse(p).Some? { Reordered(a, b, r, r', Parse(p).value); }
    if Parse(q).Some? { Reordered(b, a, r', r, Parse(q).value); }
  }

  lemma Reordered(a: seq<string>, b: seq<string>, r: string, r': string, d: Fields)
    requires AreLines(a) && AreLines(b) && multiset(a) == multiset(b) && Parse(Join(a) + "\n" + r) == Some(d)
    ensures Parse(Join(b) + "\n" + r') == Some(d)
  {
    hide Parse, WellFormed, Holds, Complete, SplitHead, Join;
    ParsedHasGrammar(Join(a) + "\n" + r, d);
    SplitHeadIs(a, r);
    WellFormedPermutes(a, b);
    HoldsPermutes(a, b, d);
    GrammarParses(Join(b) + "\n" + r', b, r', d);
  }

  // ----- formatters -----------------------------------------------------

  /** snprintf into a buffer of BROKER_MSG_MAX bytes. */
  function Printed(s: string): Option<string> { if |s| >= BROKER_MSG_MAX then None else Some(s) }

  /** Three header lines and the empty line. */
  function Reply(verb: string, cap: string, k: Key, v: string): string {
    (Prefix(Verb) + verb) + "\n" + (Prefix(Cap) + cap) + "\n" + (Prefix(k) + v) + "\n\n"
  }

  function FormatIssued(cap: string, token: string): Option<string> { Printed(Reply("issued", cap, Token, token)) }

  function FormatDenied(cap: string, reason: string): Option<string> { Printed(Reply("denied", cap, Reason, reason)) }

  /** A value that survives the line format: non-empty, short enough, one line, no leading space. */
  predicate Plain(k: Key, v: string) { 0 < |v| < Limit(k) && '\n' !in v && v[0] != ' ' }

  lemma ParsedIsPlain(buf: string, d: Fields, k: Key)
    requires Parse(buf) == Some(d) && k in d && k != Verb
    ensures Plain(k, d[k])
  {
    hide Parse, SplitHead, Join, Prefix, KeyOf;
    ParsedHasGrammar(buf, d);
    var lines := SplitHead(buf).lines;
    var i :| 0 <= i < |lines| && Has(lines[i], k);
    var v := lines[i][|Prefix(k)|..];
    assert forall c :: c in v ==> c in lines[i];
    assert SkipSpaces(v) == d[k];
  }

  /** Formatting and parsing are inverse exactly on plain values. */
  lemma ParseInvertsIssued(cap: string, token: string)
    ensures (FormatIssued(cap, token).Some? &&
             Parse(FormatIssued(cap, token).value) == Some(map[Verb := "issued", Cap := cap, Token := token]))
        <==> Plain(Cap, cap) && Plain(Token, token)
  {
    hide Parse, Plain, Reply;
    var d := map[Verb := "issued", Cap := cap, Token := token];
    if Plain(Cap, cap) && Plain(Token, token) {
      ParsesThree("issued", cap, Token, token);
    } else if FormatIssued(cap, token).Some? && Parse(FormatIssued(cap, token).value) == Some(d) {
      ParsedIsPlain(FormatIssued(cap, token).value, d, Cap);
      ParsedIsPlain(FormatIssued(cap, token).value, d, Token);
    }
  }

  lemma ParseInvertsDenied(cap: string, reason: string)
    ensures (FormatDenied(cap, reason).Some? &&
             Parse(FormatDenied(cap, reason).value) == Some(map[Verb := "denied", Cap := cap, Reason := reason]))
        <==> Plain(Cap, cap) && Plain(Reason, reason)
  {
    hide Parse, Plain, Reply;
    var d := map[Verb := "denied", Cap := cap, Reason := reason];
    if Plain(Cap, cap) && Plain(Reason, reason) {
      ParsesThree("denied", cap, Reason, reason);
    } else if FormatDenied(cap, reason).Some? && Parse(FormatDenied(cap, reason).value) == Some(d) {
      ParsedIsPlain(FormatDenied(cap, reason).value, d, Cap);
      ParsedIsPlain(FormatDenied(cap, reason).value, d, Reason);
    }
  }

  lemma HeaderLine(k: Key, v: string)
    requires v != [] && v[0] != ' '
    ensures Has(Prefix(k) + v, k) && Value(Prefix(k) + v, k) == v
    ensures '\n' in Prefix(k) + v <==> '\n' in v
  {
    assert (Prefix(k) + v)[|Prefix(k)|..] == v;
  }

  /** A reply of three header lines reads back as its three values. */
  lemma ParsesThree(verb: string, cap: string, k: Key, v: string)
    requires (verb == "issued" && k == Token) || (verb == "denied" && k == Reason)
    requires Plain(Cap, cap) && Plain(k, v)
    ensures var r := Reply(verb, cap, k, v);
      |r| < BROKER_MSG_MAX && Parse(r) == Some(map[Verb := verb, Cap := cap, k := v])
  {
    hide Has, Value, Parse, Reply, Join, WellFormed, Holds;
    var lines := [Prefix(Verb) + verb, Prefix(Cap) + cap, Prefix(k) + v];
    var d := map[Verb := verb, Cap := cap, k := v];
    ReplyText(verb, cap, k, v, lines);
    ReplyGrammar(verb, cap, k, v, lines, d);
    GrammarParses(Reply(verb, cap, k, v), lines, "", d);
  }

  lemma ReplyText(verb: string, cap: string, k: Key, v: string, lines: seq<string>)
    requires (verb == "issued" && k == Token) || (verb == "denied" && k == Reason)
    requires Plain(Cap, cap) && Plain(k, v) && lines == [Prefix(Verb) + verb, Prefix(Cap) + cap, Prefix(k) + v]
    ensures var r := Reply(verb, cap, k, v); r == Join(lines) + "\n" + "" && |r| < BROKER_MSG_MAX && AreLines(lines)
  {
    hide Join, Prefix;
    ThreeLines(lines[0], lines[1], lines[2]);
    HeaderLine(Verb, verb);
    HeaderLine(Cap, cap);
    HeaderLine(k, v);
    PrefixLengths();
  }

  lemma PrefixLengths()
    ensures forall k :: 4 <= |Prefix(k)| <= 8
  {
  }

  lemma ReplyGrammar(verb: string, cap: string, k: Key, v: string, lines: seq<string>, d: Fields)
    requires (verb == "issued" && k == Token) || (verb == "denied" && k == Reason)
    requires Plain(Cap, cap) && Plain(k, v) && lines == [Prefix(Verb) + verb, Prefix(Cap) + cap, Prefix(k) + v]
    requires d == map[Verb := verb, Cap := cap, k := v]
    ensures WellFormed(lines) && Holds(lines, d) && Complete(d)
  {
    hide Prefix, Has, Value;
    HeaderLine(Verb, verb);
    HeaderLine(Cap, cap);
    HeaderLine(k, v);
    forall i, j | 0 <= i < |lines| && Has(lines[i], j) ensures j == [Verb, Cap, k][i] {
      KeysDiffer(lines[i], j, [Verb, Cap, k][i]);
    }
    assert Has(lines[0], Verb) && Has(lines[1], Cap) && Has(lines[2], k);
  }

  lemma ThreeLines(a: string, b: string, c: string)
    ensures a + "\n" + b + "\n" + c + "\n\n" == Join([a, b, c]) + "\n" + ""
  {
    assert [a, b, c][1..] == [b, c] && [b, c][1..] == [c] && [c][1..] == [];
    assert Join([c]) == c + "\n";
    assert Join([b, c]) == b + "\n" + (c + "\n");
    assert Join([a, b, c]) == a + "\n" + (b + "\n" + (c + "\n"));
  }

  /** The issued reply for any capability that was parsed, with a token of the fixed length, fits its buffer. */
  lemma IssuedReplyFits(buf: string, d: Fields, token: string)
    requires Parse(buf) == Some(d) && |token| == BROKER_TOKEN_LEN
    ensures Cap in d && FormatIssued(d[Cap], token).Some?
  {
    ParsedHasGrammar(buf, d);
    ParsedIsPlain(buf, d, Cap);
  }
}
