/** parse_inplace as ipc.c runs it: a cursor over a byte buffer that is cut into C strings where it lies. */
module Ipc {
  import opened Options
  import opened Text
  import opened Wire

  /** Addresses in the buffer: where the strings start, and where the payload lies. */
  datatype Pointers = Pointers(verb: nat, replyTo: Option<nat>, taskId: Option<nat>, start: nat, len: nat)

  /** The C string w starts at v and ends, NUL included, before p. */
  predicate Points(s: string, v: nat, w: string, p: nat) {
    v + |w| < p <= |s| && s[v..v + |w|] == w && s[v + |w|] == NUL && NUL !in w
  }

  predicate PointsIf(s: string, v: Option<nat>, w: Option<string>, p: nat) {
    v.Some? == w.Some? && (v.Some? ==> Points(s, v.value, w.value, p))
  }

  /** The struct being filled. */
  datatype Out = Out(verb: Option<nat>, len: Option<nat>, replyTo: Option<nat>, taskId: Option<nat>)

  predicate Filled(s: string, o: Out, d: Fields, p: nat) {
    && PointsIf(s, o.verb, d.verb, p) && o.len == d.len
    && PointsIf(s, o.replyTo, d.replyTo, p) && PointsIf(s, o.taskId, d.taskId, p)
  }

  /** t is s with some newlines before p turned into NULs. */
  ghost predicate Cut(s: string, t: string, p: nat) {
    |t| == |s| && forall k :: 0 <= k < |s| ==> t[k] == s[k] || (k < p && s[k] == '\n' && t[k] == NUL)
  }

  /** What C code reads at an address. */
  function StringAt(s: string, v: nat): string
    requires v <= |s|
  {
    CString(s[v..])
  }

  lemma PointsReads(s: string, v: nat, w: string, p: nat)
    requires Points(s, v, w, p)
    ensures StringAt(s, v) == w
  {
    assert s[v..][..|w|] == w;
    IndexOfIs(s[v..], NUL, |w|);
  }

  /** Turning later newlines into NULs leaves the earlier strings alone. */
  lemma FilledLater(s: string, t: string, o: Out, d: Fields, p: nat, q: nat)
    requires Filled(s, o, d, p) && p <= q <= |t| && |t| == |s| && forall k :: 0 <= k < p ==> t[k] == s[k]
    ensures Filled(t, o, d, q)
  {
    forall v: nat, w | Points(s, v, w, p) ensures Points(t, v, w, q) {
      assert forall k :: v <= k < v + |w| ==> t[k] == s[k];
      assert t[v..v + |w|] == s[v..v + |w|];
    }
  }

  method FindSeparator(buf: array<char>, total: nat) returns (sep: nat)
    requires total <= buf.Length
    ensures sep == FindSep(buf[..total])
  {
    var i := 0;
    assert buf[..total][0..] == buf[..total];
    while i + 1 < total
      invariant 0 <= i <= total && FindSep(buf[..total]) == i + FindSep(buf[..total][i..])
    {
      if buf[i] == '\n' && buf[i + 1] == '\n' { return i; }
      assert buf[..total][i..][1..] == buf[..total][i + 1..];
      i := i + 1;
    }
    return total;
  }

  /** The loop over leading spaces; the NUL at eol stops it. */
  method SkipSpacesAt(buf: array<char>, from: nat, eol: nat) returns (v: nat)
    requires from <= eol < buf.Length && buf[eol] == NUL
    ensures from <= v <= eol && buf[v..eol] == SkipSpaces(buf[from..eol])
  {
    v := from;
    while buf[v] == ' '
      invariant from <= v <= eol && SkipSpaces(buf[v..eol]) == SkipSpaces(buf[from..eol])
      decreases eol - v
    {
      assert buf[v..eol][1..] == buf[v + 1..eol];
      v := v + 1;
    }
  }

  /** A value found at v, up to the NUL written at eol, is the C string of the rest of its line. */
  lemma ValuePoints(s: string, v: nat, eol: nat)
    requires v <= eol < |s| && s[eol] == NUL
    ensures Points(s, v, CString(s[v..eol]), eol + 1)
  {
    var w := CString(s[v..eol]);
    assert s[v..eol][..|w|] == s[v..v + |w|];
    assert |w| < eol - v ==> s[v..eol][|w|] == NUL;
  }

  method ValueAt(buf: array<char>, p: nat, eol: nat, n: nat) returns (v: nat)
    requires p + n <= eol < buf.Length && buf[eol] == NUL
    ensures v <= eol && CString(buf[v..eol]) == ValueAfter(buf[p..eol], n)
    ensures Points(buf[..], v, ValueAfter(buf[p..eol], n), eol + 1)
    ensures buf[v] == NUL <==> ValueAfter(buf[p..eol], n) == []
  {
    v := SkipSpacesAt(buf, p + n, eol);
    assert buf[p..eol][n..] == buf[p + n..eol];
    assert buf[v..eol] == buf[..][v..eol];
    ValuePoints(buf[..], v, eol);
    assert v < eol ==> buf[v..eol][0] == buf[v];
  }

  /** One header line [p, eol), just cut at eol. */
  method TakeLineAt(buf: array<char>, p: nat, eol: nat, o: Out, ghost d: Fields) returns (r: Option<Out>)
    requires p <= eol < buf.Length && buf[eol] == NUL && Filled(buf[..], o, d, p)
    ensures r.Some? == TakeLine(buf[p..eol], d).Some?
    ensures r.Some? ==> Filled(buf[..], r.value, TakeLine(buf[p..eol], d).value, eol + 1)
  {
    hide LenValue, Points, ValueAfter, CString;
    FilledLater(buf[..], buf[..], o, d, p, eol + 1);
    var line := buf[p..eol];
    if "VERB " <= line {
      if o.verb.Some? { return None; }
      var v := ValueAt(buf, p, eol, 5);
      if buf[v] == NUL { return None; }
      r := Some(o.(verb := Some(v)));
    } else if "LEN " <= line {
      if o.len.Some? { return None; }
      var v := ValueAt(buf, p, eol, 4);
      var n := LenValue(CString(buf[v..eol]));
      if n.None? { return None; }
      r := Some(o.(len := n));
    } else if "REPLY-TO " <= line {
      if o.replyTo.Some? { return None; }
      var v := ValueAt(buf, p, eol, 9);
      r := Some(o.(replyTo := Some(v)));
    } else if "TASK-ID " <= line {
      if o.taskId.Some? { return None; }
      var v := ValueAt(buf, p, eol, 8);
      r := Some(o.(taskId := Some(v)));
    } else {
      r := Some(o);
    }
  }

  /** memchr for a newline in [p, end), or end. */
  method LineEnd(buf: array<char>, p: nat, end: nat) returns (eol: nat)
    requires p <= end <= buf.Length
    ensures p <= eol <= end && eol - p == IndexOf(buf[p..end], '\n')
  {
    eol := p;
    while eol < end && buf[eol] != '\n'
      invariant p <= eol <= end && '\n' !in buf[p..eol]
    {
      eol := eol + 1;
    }
    assert buf[p..end][..eol - p] == buf[p..eol];
    IndexOfIs(buf[p..end], '\n', eol - p);
  }

  /** The strings the struct points to, read back from the buffer, are the fields. */
  ghost predicate Shows(s: string, r: Pointers, v: View) {
    && r.start == v.start && r.len == v.len
    && r.verb <= |s| && StringAt(s, r.verb) == v.verb
    && (match r.replyTo case None => v.replyTo == [] case Some(a) => a <= |s| && StringAt(s, a) == v.replyTo)
    && (match r.taskId case None => v.taskId == [] case Some(a) => a <= |s| && StringAt(s, a) == v.taskId)
  }

  lemma FilledShows(s: string, o: Out, d: Fields, p: nat, start: nat, len: nat)
    requires Filled(s, o, d, p) && o.verb.Some?
    ensures Shows(s, Pointers(o.verb.value, o.replyTo, o.taskId, start, len),
                  View(d.verb.value, OrEmpty(d.replyTo), OrEmpty(d.taskId), start, len))
  {
    hide StringAt;
    forall v: nat, w | Points(s, v, w, p) ensures StringAt(s, v) == w { PointsReads(s, v, w, p); }
  }

  lemma CutOne(s: string, t: string, t': string, p: nat, eol: nat)
    requires Cut(s, t, p) && p <= eol < |s| && s[eol] == '\n' && t' == t[eol := NUL]
    ensures Cut(s, t', eol + 1)
  {
  }

  /** The cursor moves to the next line of the header, or past its end. */
  lemma TakeLinesStep(h: string, p: nat, eol: nat, d: Fields)
    requires p < |h| && p <= eol <= |h| && eol - p == IndexOf(h[p..], '\n')
    ensures TakeLines(h[p..], d) ==
      match TakeLine(h[p..eol], d) {
        case None => None
        case Some(e) => if eol == |h| then Some(e) else TakeLines(h[eol + 1..], e)
      }
  {
    hide TakeLine;
    assert h[p..][..eol - p] == h[p..eol];
    if eol < |h| { assert h[p..][eol - p + 1..] == h[eol + 1..]; }
  }

  /** Cut the line at the cursor out of the header and take it. */
  method NextLine(buf: array<char>, p: nat, sep: nat, o: Out, ghost d: Fields, ghost s: string)
    returns (eol: nat, r: Option<Out>)
    requires p < sep < buf.Length && |s| == buf.Length && s[sep] == '\n' && Cut(s, buf[..], p)
    requires Filled(buf[..], o, d, p)
    modifies buf
    ensures p <= eol <= sep && eol - p == IndexOf(s[p..sep], '\n') && Cut(s, buf[..], eol + 1)
    ensures r.Some? == TakeLine(s[p..eol], d).Some?
    ensures r.Some? ==> Filled(buf[..], r.value, TakeLine(s[p..eol], d).value, eol + 1)
  {
    hide Filled, TakeLine, IndexOf;
    ghost var before := buf[..];
    assert buf[p..sep] == s[p..sep];
    eol := LineEnd(buf, p, sep);
    assert s[eol] == '\n' by { assert eol < sep ==> s[p..sep][eol - p] == s[eol]; }
    buf[eol] := NUL;
    CutOne(s, before, buf[..], p, eol);
    FilledLater(before, buf[..], o, d, p, p);
    assert buf[p..eol] == s[p..eol];
    r := TakeLineAt(buf, p, eol, o, d);
  }

  /** The whole parser. It accepts exactly when Parse does, its pointers show what Parse returns, and all it
      writes is a NUL over a newline that ends a header line. */
  method ParseInPlace(buf: array<char>, total: nat) returns (r: Option<Pointers>)
    requires total <= buf.Length
    modifies buf
    ensures r.Some? == Parse(old(buf[..total])).Some?
    ensures r.Some? ==> Shows(buf[..], r.value, Parse(old(buf[..total])).value)
    ensures Cut(old(buf[..]), buf[..], if FindSep(old(buf[..total])) < total then FindSep(old(buf[..total])) + 1 else 0)
  {
    hide Filled, TakeLine, TakeLines, FindSep, IndexOf, Cut, Shows;
    ghost var s, text := buf[..], buf[..total];
    CutSelf(s);
    var sep := FindSeparator(buf, total);
    if sep == total { return None; }
    ghost var h := text[..sep];
    assert h[0..] == h && h == s[..sep] && s[sep] == text[sep];
    var p, out := 0, Out(None, None, None, None);
    ghost var d := NO_FIELDS;
    FilledNothing(s);
    while p < sep
      invariant p <= sep + 1 && Cut(s, buf[..], p) && Filled(buf[..], out, d, p)
      invariant TakeLines(h, NO_FIELDS) == if p <= sep then TakeLines(h[p..], d) else Some(d)
    {
      var eol, next := NextLine(buf, p, sep, out, d, s);
      assert s[p..sep] == h[p..] && s[..sep][p..eol] == s[p..eol];
      TakeLinesStep(h, p, eol, d);
      if next.None? { CutMore(s, buf[..], eol + 1, sep + 1); return None; }
      d, out, p := TakeLine(h[p..eol], d).value, next.value, eol + 1;
    }
    if p == sep { TakeLinesEnd(h, p, d); }
    CutMore(s, buf[..], p, sep + 1);
    FilledVerb(buf[..], out, d, p);
    if out.verb.None? { return None; }
    var avail := total - (sep + 2);
    var len := if out.len.Some? then out.len.value else avail;
    if len > avail { return None; }
    FilledShows(buf[..], out, d, p, sep + 2, len);
    return Some(Pointers(out.verb.value, out.replyTo, out.taskId, sep + 2, len));
  }

  lemma CutSelf(s: string)
    ensures Cut(s, s, 0)
  {
  }

  lemma CutMore(s: string, t: string, p: nat, q: nat)
    requires Cut(s, t, p) && p <= q
    ensures Cut(s, t, q)
  {
  }

  lemma FilledNothing(s: string)
    ensures Filled(s, Out(None, None, None, None), NO_FIELDS, 0)
  {
  }

  lemma FilledVerb(s: string, o: Out, d: Fields, p: nat)
    requires Filled(s, o, d, p)
    ensures o.verb.Some? == d.verb.Some? && o.len == d.len
  {
  }

  lemma TakeLinesEnd(h: string, p: nat, d: Fields)
    requires p == |h|
    ensures TakeLines(h[p..], d) == Some(d)
  {
  }
}
