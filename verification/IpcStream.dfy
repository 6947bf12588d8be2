/** recv_stream_into: cutting one frame out of a byte stream, however the stream is chunked. */
module IpcStream {
  import opened Options
  import opened Text
  import opened Wire

  const NUMBER_BUF := 32

  // ----- what the framer computes ---------------------------------------

  /** The end of the header, empty line included; 0 if there is none yet. */
  function HeadEnd(s: string): (e: nat)
    ensures e <= |s|
  {
    if s != [] && s[0] == '\n' then 1
    else if FindSep(s) == |s| then 0 else FindSep(s) + 2
  }

  predicate LenHere(s: string, i: nat) { i + 4 <= |s| && s[i..i + 4] == "LEN " && (i == 0 || s[i - 1] == '\n') }

  /** The first line that starts with LEN, or the length. */
  function LenAt(s: string, i: nat): (r: nat)
    requires i <= |s|
    ensures i <= r <= |s| && (r < |s| ==> LenHere(s, r)) && forall j: nat :: i <= j < r ==> !LenHere(s, j)
    decreases |s| - i
  {
    if i == |s| then i else if LenHere(s, i) then i else LenAt(s, i + 1)
  }

  function Upto(s: string, n: nat): string { if |s| <= n then s else s[..n] }

  /** The rest of the line from i on. */
  function RestOfLine(s: string, i: nat): string
    requires i <= |s|
  {
    s[i..][..IndexOf(s[i..], '\n')]
  }

  /** The length the framer reads off the header: at most 31 characters of the first LEN line. */
  function Need(head: string): Option<nat> {
    var i := LenAt(head, 0);
    if i == |head| then None else LenValue(CString(Upto(RestOfLine(head, i + 4), NUMBER_BUF - 1)))
  }

  datatype Outcome = Framed(total: nat) | PeerGone | Violation

  /** What one call returns for a stream that holds s and then ends, with a buffer of the given size. */
  function Receive(s: string, cap: nat): Outcome {
    var e := HeadEnd(s);
    if e == 0 then (if s == [] && cap > 1 then PeerGone else Violation)
    else if e >= cap then Violation
    else match Need(s[..e])
      case None => Violation
      case Some(n) => if e + n > cap || e + n > |s| then Violation else Framed(e + n)
  }

  // ----- the framer -----------------------------------------------------

  /** A connected stream: what is still to be read before the peer closes it. */
  class ByteStream {
    var rest: string

    constructor (data: string)
      ensures rest == data
    {
      rest := data;
    }

    /** read(2): at least one byte and at most `want`, or nothing at the end. The kernel chooses how many. */
    method Read(buf: array<char>, pos: nat, want: nat, chunk: nat) returns (r: nat)
      requires 0 < want && pos + want <= buf.Length
      modifies this, buf
      ensures r <= want && r <= |old(rest)| && rest == old(rest)[r..]
      ensures r == 0 <==> old(rest) == []
      ensures buf[..pos] == old(buf[..pos]) && buf[pos..pos + r] == old(rest)[..r]
    {
      r := |rest|;
      if r > want { r := want; }
      if chunk < r { r := if chunk == 0 then 1 else chunk; }
      if r == 0 { return; }
      var i := 0;
      while i < r
        invariant 0 <= i <= r && rest == old(rest)
        invariant buf[..pos] == old(buf[..pos]) && buf[pos..pos + i] == rest[..i]
      {
        buf[pos + i] := rest[i];
        i := i + 1;
      }
      rest := rest[r..];
    }
  }

  /** No empty line ends before pos. */
  ghost predicate NoBlank(s: string, pos: nat) {
    pos <= |s| && forall e: nat :: 0 < e <= pos ==> !BlankEnds(s, e)
  }

  predicate BlankEnds(s: string, e: nat) { 0 < e <= |s| && s[e - 1] == '\n' && (e == 1 || s[e - 2] == '\n') }

  lemma {:induction false} FindSepFirst(s: string)
    ensures var i := FindSep(s); forall j: nat :: j < i && j + 1 < |s| ==> !(s[j] == '\n' && s[j + 1] == '\n')
  {
    if |s| >= 2 && !(s[0] == '\n' && s[1] == '\n') {
      FindSepFirst(s[1..]);
      var i := FindSep(s);
      forall j: nat | j < i && j + 1 < |s| ensures !(s[j] == '\n' && s[j + 1] == '\n') {
        if j > 0 { assert s[1..][j - 1] == s[j] && s[1..][j] == s[j + 1]; }
      }
    }
  }

  lemma FindSepIs(s: string, i: nat)
    requires i + 1 < |s| && s[i] == '\n' && s[i + 1] == '\n'
    requires forall j: nat :: j < i ==> !(s[j] == '\n' && s[j + 1] == '\n')
    ensures FindSep(s) == i
  {
    FindSepFirst(s);
    var k := FindSep(s);
    assert k < |s| ==> s[k] == '\n' && s[k + 1] == '\n';
  }

  /** The first place where an empty line ends is the end of the header. */
  lemma HeadEndIs(s: string, e: nat)
    requires BlankEnds(s, e) && NoBlank(s, e - 1)
    ensures HeadEnd(s) == e
  {
    if e == 1 {
    } else {
      assert !BlankEnds(s, 1);
      forall j: nat | j < e - 2 ensures !(s[j] == '\n' && s[j + 1] == '\n') { assert !BlankEnds(s, j + 2); }
      FindSepIs(s, e - 2);
    }
  }

  lemma HeadEndNone(s: string)
    requires NoBlank(s, |s|)
    ensures HeadEnd(s) == 0
  {
    assert s != [] ==> !BlankEnds(s, 1);
    var i := FindSep(s);
    assert i < |s| ==> !BlankEnds(s, i + 2);
  }

  lemma HeadEndLater(s: string, p: nat)
    requires NoBlank(s, p)
    ensures HeadEnd(s) == 0 || HeadEnd(s) > p
  {
    var e := HeadEnd(s);
    assert e > 0 ==> BlankEnds(s, e);
  }

  datatype HeadRead = GotHead(pos: nat) | HeadGone | HeadBad

  /** The header loop: one byte at a time up to the first empty line. */
  method ReadHead(stream: ByteStream, buf: array<char>) returns (r: HeadRead)
    modifies stream, buf
    ensures var s := old(stream.rest);
      var e := HeadEnd(s);
      match r
      case GotHead(pos) => pos == e && 0 < e < buf.Length && buf[..pos] == s[..pos] && stream.rest == s[pos..]
      case HeadGone => s == [] && buf.Length > 1
      case HeadBad => (e == 0 && !(s == [] && buf.Length > 1)) || e >= buf.Length
  {
    hide HeadEnd;
    ghost var s := stream.rest;
    var pos, lineStart := 0, 0;
    while true
      invariant pos <= |s| && pos <= buf.Length && buf[..pos] == s[..pos] && stream.rest == s[pos..]
      invariant lineStart <= pos && NoBlank(s, pos)
      invariant lineStart == 0 || s[lineStart - 1] == '\n'
      invariant forall k :: lineStart <= k < pos ==> s[k] != '\n'
      decreases |stream.rest|
    {
      if pos + 1 >= buf.Length {
        HeadEndLater(s, pos);
        EmptyHead();
        return HeadBad;
      }
      var got := stream.Read(buf, pos, 1, 1);
      if got == 0 {
        HeadEndNone(s);
        return if pos == 0 then HeadGone else HeadBad;
      }
      var c := buf[pos];
      assert c == buf[pos..pos + 1][0] == s[pos];
      assert buf[..pos + 1] == buf[..pos] + [c] == s[..pos + 1];
      pos := pos + 1;
      if c == '\n' {
        if pos - lineStart == 1 {
          HeadEndIs(s, pos);
          return GotHead(pos);
        }
        lineStart := pos;
      }
    }
  }

  lemma EmptyHead()
    ensures HeadEnd([]) == 0
  {
  }

  /** The loop that copies the number into its buffer. */
  method CopyNumber(buf: array<char>, from: nat, pos: nat) returns (nb: string)
    requires from <= pos <= buf.Length
    ensures nb == Upto(RestOfLine(buf[..pos], from), NUMBER_BUF - 1)
  {
    nb := [];
    var j := from;
    ghost var line := buf[..pos][from..];
    while j < pos && buf[j] != '\n' && |nb| < NUMBER_BUF - 1
      invariant from <= j <= pos && nb == buf[from..j] && |nb| <= NUMBER_BUF - 1 && '\n' !in nb
    {
      nb := nb + [buf[j]];
      j := j + 1;
    }
    assert line == buf[from..pos];
    assert line[..j - from] == nb;
    assert j < pos ==> line[j - from] == buf[j];
    NumberRead(line, nb);
  }

  /** The scan for LEN over a complete header. */
  method FindNeed(buf: array<char>, pos: nat) returns (need: Option<nat>)
    requires pos <= buf.Length
    ensures need == Need(buf[..pos])
  {
    hide LenValue, CString, RestOfLine, Upto;
    ghost var head := buf[..pos];
    var i := 0;
    while i + 4 <= pos
      invariant 0 <= i <= pos && LenAt(head, 0) == LenAt(head, i)
    {
      assert head[i..i + 4] == buf[i..i + 4];
      if buf[i..i + 4] == "LEN " && (i == 0 || buf[i - 1] == '\n') {
        var nb := CopyNumber(buf, i + 4, pos);
        return LenValue(CString(nb));
      }
      i := i + 1;
    }
    NoLenLeft(head, i);
    return None;
  }

  lemma NoLenLeft(s: string, i: nat)
    requires i <= |s| < i + 4
    ensures LenAt(s, i) == |s|
  {
  }

  /** Copying up to the newline, the end or 31 characters gives the truncated rest of the line. */
  lemma NumberRead(line: string, nb: string)
    requires nb <= line && '\n' !in nb && |nb| <= NUMBER_BUF - 1
    requires |nb| == |line| || line[|nb|] == '\n' || |nb| == NUMBER_BUF - 1
    ensures Upto(line[..IndexOf(line, '\n')], NUMBER_BUF - 1) == nb
  {
    var e := IndexOf(line, '\n');
    assert forall k :: 0 <= k < |nb| ==> line[k] == nb[k] && nb[k] in nb;
    assert |nb| <= e;
    if |nb| == |line| || line[|nb|] == '\n' { IndexOfIs(line, '\n', |nb|); }
    assert line[..e][..|nb|] == nb;
  }

  /** One call of recv_stream_into. Whatever the chunks, it returns what Receive says, fills the buffer with
      exactly that frame, and leaves the stream at the first byte after it. */
  method ReceiveFrame(stream: ByteStream, buf: array<char>, chunks: seq<nat>) returns (r: Outcome)
    modifies stream, buf
    ensures r == Receive(old(stream.rest), buf.Length)
    ensures r.Framed? ==> r.total <= buf.Length && r.total <= |old(stream.rest)|
    ensures r.Framed? ==> buf[..r.total] == old(stream.rest)[..r.total] && stream.rest == old(stream.rest)[r.total..]
  {
    hide HeadEnd, Need;
    ghost var s := stream.rest;
    EmptyHead();
    var head := ReadHead(stream, buf);
    if head.HeadGone? { return PeerGone; }
    if head.HeadBad? { return Violation; }
    var pos := head.pos;
    var need := FindNeed(buf, pos);
    if need.None? { return Violation; }
    if pos + need.value > buf.Length { return Violation; }
    var total, left, k := pos + need.value, need.value, 0;
    while left > 0
      invariant left >= 0 && pos + left == total <= buf.Length && pos <= |s| && buf[..pos] == s[..pos] &&
        stream.rest == s[pos..]
    {
      var got := stream.Read(buf, pos, left, if k < |chunks| then chunks[k] else left);
      if got == 0 { return Violation; }
      assert s[..pos] + s[pos..][..got] == s[..pos + got];
      assert buf[..pos + got] == buf[..pos] + buf[pos..pos + got];
      pos, left, k := pos + got, left - got, k + 1;
    }
    return Framed(pos);
  }

  // ----- the framer and the parser agree --------------------------------

  /** A LEN line inside an accepted header is the one whose value the parser reports. */
  lemma {:induction false} LenIsTaken(s: string, d: Fields, i: nat)
    requires TakeLines(s, d).Some? && LenHere(s, i)
    ensures TakeLines(s, d).value.len == LenValue(CString(SkipSpaces(RestOfLine(s, i + 4)))) != None
    decreases |s|
  {
    hide LenValue, CString, SkipSpaces, TakeLine;
    var eol := IndexOf(s, '\n');
    var d' := TakeLine(s[..eol], d).value;
    if i == 0 {
      LenFirst(s, d);
      if eol < |s| { LenStays(s[eol + 1..], d'); }
    } else {
      LenBeyond(s, i, eol);
      var t := s[eol + 1..];
      assert t[i - eol - 1..i - eol + 3] == s[i..i + 4];
      assert t[i - eol + 3..] == s[i + 4..];
      LenIsTaken(t, d', i - eol - 1);
    }
  }

  lemma LenFirst(s: string, d: Fields)
    requires LenHere(s, 0) && TakeLine(s[..IndexOf(s, '\n')], d).Some?
    ensures TakeLine(s[..IndexOf(s, '\n')], d).value.len == LenValue(CString(SkipSpaces(RestOfLine(s, 4)))) != None
  {
    hide LenValue, CString, SkipSpaces;
    var eol := IndexOf(s, '\n');
    var line := s[..eol];
    NoNewlineIn(s, "LEN ");
    assert line[..4] == s[0..4] && line[0] == 'L';
    assert s[4..][..eol - 4] == line[4..];
    assert forall c :: c in line[4..] ==> c in line;
    IndexOfIs(s[4..], '\n', eol - 4);
  }

  lemma NoNewlineIn(s: string, w: string)
    requires w <= s && '\n' !in w
    ensures |w| <= IndexOf(s, '\n')
  {
    var e := IndexOf(s, '\n');
    assert forall k :: 0 <= k < |w| ==> s[k] == w[k] && w[k] in w;
  }

  lemma LenBeyond(s: string, i: nat, eol: nat)
    requires LenHere(s, i) && 0 < i && eol == IndexOf(s, '\n')
    ensures eol < i
  {
    assert forall k :: 0 <= k < eol ==> s[k] in s[..eol];
  }

  lemma TakeLineKeepsLen(line: string, d: Fields)
    requires TakeLine(line, d).Some? && d.len.Some?
    ensures TakeLine(line, d).value.len == d.len
  {
    hide LenValue, ValueAfter;
  }

  /** Once LEN has been read it is never read again. */
  lemma {:induction false} LenStays(s: string, d: Fields)
    requires TakeLines(s, d).Some? && d.len.Some?
    ensures TakeLines(s, d).value.len == d.len
    decreases |s|
  {
    hide TakeLine, IndexOf;
    if s != [] {
      var eol := IndexOf(s, '\n');
      TakeLineKeepsLen(s[..eol], d);
      if eol < |s| { LenStays(s[eol + 1..], TakeLine(s[..eol], d).value); }
    }
  }

  /** An accepted LEN text is white space, an optional sign and digits, and its value is the digits'. */
  lemma LenShape(s: string, n: nat) returns (ds: string)
    requires LenValue(s) == Some(n)
    ensures var w := SkipWhite(s); w != [] && ds == (if w[0] == '-' || w[0] == '+' then w[1..] else w)
    ensures ds != [] && (forall i :: 0 <= i < |ds| ==> IsDigit(ds[i])) && Number(ds) == n
  {
    var w := SkipWhite(s);
    ds := if w != [] && (w[0] == '-' || w[0] == '+') then w[1..] else w;
    DigitsIsPrefix(ds);
    SkipWhiteIsSuffix(s);
    assert Digits(ds) == ds;
  }

  lemma {:induction false} SkipWhitePrefix(p: string, q: string)
    requires p <= q && SkipWhite(p) != []
    ensures SkipWhite(p) <= SkipWhite(q)
  {
    if White(p[0]) { SkipWhitePrefix(p[1..], q[1..]); }
  }

  lemma {:induction false} NumberGrows(a: string, b: string)
    requires a <= b && forall i :: 0 <= i < |b| ==> IsDigit(b[i])
    ensures Number(a) <= Number(b)
    decreases |b|
  {
    if |a| == |b| {
      assert a == b;
    } else {
      NumberGrows(a, b[..|b| - 1]);
    }
  }

  /** Cutting the number short can only make it smaller. */
  lemma PrefixIsSmaller(p: string, q: string, n: nat, m: nat)
    requires p <= q && LenValue(p) == Some(n) && LenValue(q) == Some(m)
    ensures n <= m
  {
    hide LenValue;
    var a := LenShape(p, n);
    var b := LenShape(q, m);
    SkipWhitePrefix(p, q);
    assert a <= b;
    NumberGrows(a, b);
  }

  lemma {:induction false} CStringSkips(r: string)
    ensures CString(SkipSpaces(r)) == SkipSpaces(CString(r))
  {
    if r != [] && r[0] == ' ' {
      CStringSkips(r[1..]);
      var i := IndexOf(r[1..], NUL);
      assert r[..i + 1][1..] == r[1..][..i];
    }
  }

  lemma {:induction false} WhiteAfterSpaces(c: string)
    ensures SkipWhite(SkipSpaces(c)) == SkipWhite(c) && |SkipSpaces(c)| >= |SkipWhite(c)|
  {
    if c != [] && c[0] == ' ' { WhiteAfterSpaces(c[1..]); }
    else { SkipWhiteIsSuffix(c); }
  }

  lemma LenAfterSpaces(r: string)
    ensures LenValue(CString(SkipSpaces(r))) == LenValue(CString(r))
  {
    CStringSkips(r);
    WhiteAfterSpaces(CString(r));
    SkipWhiteIsSuffix(CString(r));
  }

  lemma CStringPrefix(p: string, q: string)
    requires p <= q
    ensures CString(p) <= CString(q)
  {
    var i := IndexOf(p, NUL);
    if i < |p| {
      assert q[..i] == p[..i];
      IndexOfIs(q, NUL, i);
    } else {
      assert forall k :: 0 <= k < |p| ==> q[k] == p[k] && p[k] in p[..i];
      assert i <= IndexOf(q, NUL);
    }
  }

  /** Inside a header, the framer's line and the parser's line are the same. */
  lemma SameLine(h: string, i: nat)
    requires LenHere(h + "\n\n", i)
    ensures LenHere(h, i) && RestOfLine(h + "\n\n", i + 4) == RestOfLine(h, i + 4)
  {
    var head := h + "\n\n";
    assert head[|h|] == '\n';
    assert forall k :: 0 <= k < 4 ==> head[i + k] == "LEN "[k];
    assert i + 4 <= |h|;
    assert h[i..i + 4] == head[i..i + 4];
    var t := h[i + 4..];
    var j := IndexOf(t, '\n');
    assert head[i + 4..][..j] == t[..j];
    assert j == |t| ==> head[i + 4..][j] == head[|h|];
    IndexOfIs(head[i + 4..], '\n', j);
  }

  lemma {:induction false} FindSepPrefix(s: string, t: string)
    requires FindSep(s) < |s| && FindSep(s) + 2 <= |t| && t <= s
    ensures FindSep(t) == FindSep(s)
  {
    if FindSep(s) > 0 { FindSepPrefix(s[1..], t[1..]); }
  }

  /** Whenever the framer cuts a frame and the parser accepts it, the payload the parser hands out is all that
      follows the header: both read the same length, even where the framer's number buffer cut it short. */
  lemma FramerAndParserAgree(s: string, cap: nat, v: View)
    requires Receive(s, cap).Framed? && Parse(s[..Receive(s, cap).total]) == Some(v)
    ensures v.start == HeadEnd(s) && v.start + v.len == Receive(s, cap).total
  {
    hide FindSep, TakeLines, LenValue, LenAt, CString, RestOfLine;
    var e, t := HeadEnd(s), Receive(s, cap).total;
    NotBlankFirst(s, cap);
    var h := s[..e - 2];
    assert s[..e] == h + "\n\n";
    FindSepPrefix(s, s[..t]);
    assert s[..t][..e - 2] == h;
    var i := LenAt(s[..e], 0);
    SameLine(h, i);
    LenIsTaken(h, NO_FIELDS, i);
    var rest := RestOfLine(h, i + 4);
    LenAfterSpaces(rest);
    CStringPrefix(Upto(rest, NUMBER_BUF - 1), rest);
    PrefixIsSmaller(CString(Upto(rest, NUMBER_BUF - 1)), CString(rest), t - e, v.len);
  }

  lemma NotBlankFirst(s: string, cap: nat)
    requires Receive(s, cap).Framed?
    ensures s[0] != '\n' && FindSep(s) + 2 == HeadEnd(s) <= Receive(s, cap).total <= |s|
    ensures s[HeadEnd(s) - 2] == '\n' && s[HeadEnd(s) - 1] == '\n' && LenAt(s[..HeadEnd(s)], 0) < HeadEnd(s)
  {
    hide *;
    FramedParts(s, cap);
    HeadShape(s);
  }

  lemma HeadShape(s: string)
    requires HeadEnd(s) > 1
    ensures s[0] != '\n' && FindSep(s) + 2 == HeadEnd(s) && s[HeadEnd(s) - 2] == '\n' && s[HeadEnd(s) - 1] == '\n'
  {
  }

  lemma FramedParts(s: string, cap: nat)
    requires Receive(s, cap).Framed?
    ensures 4 <= HeadEnd(s) <= Receive(s, cap).total <= |s| && LenAt(s[..HeadEnd(s)], 0) < HeadEnd(s)
  {
    hide HeadEnd, LenAt, LenHere, LenValue, RestOfLine, CString, Upto;
    ShortHasNoLen(s[..HeadEnd(s)]);
  }

  lemma ShortHasNoLen(head: string)
    ensures |head| < 4 ==> LenAt(head, 0) == |head|
  {
    if |head| < 4 { NoLenLeft(head, 0); }
  }

  // ----- streams of built frames ----------------------------------------

  lemma LenAtIs(s: string, i: nat)
    requires LenHere(s, i) && forall j: nat :: j < i ==> !LenHere(s, j)
    ensures LenAt(s, 0) == i
  {
  }

  /** A header whose second line is LEN n is read as n. */
  lemma NeedIs(line: string, n: nat, u: string)
    requires '\n' !in line && !("LEN " <= line) && n <= IPC_MSG_HARD_CAP
    ensures Need(line + "\n" + "LEN " + Decimal(n) + "\n" + u) == Some(n)
  {
    hide LenValue, CString, LenAt, Decimal;
    var head := line + "\n" + "LEN " + Decimal(n) + "\n" + u;
    var i := |line| + 1;
    SecondLine(line, Decimal(n), u);
    assert LenAt(head, 0) == i by { LenAtIs(head, i); }
    LenOfDecimal(n);
    ShortDecimal(n);
    CStringPlain(Decimal(n));
  }

  lemma CStringPlain(v: string)
    requires NUL !in v
    ensures CString(v) == v
  {
    assert v[..|v|] == v;
    IndexOfIs(v, NUL, |v|);
  }

  lemma SecondLine(line: string, ds: string, u: string)
    requires '\n' !in line && !("LEN " <= line) && '\n' !in ds
    ensures var head := line + "\n" + "LEN " + ds + "\n" + u;
      var i := |line| + 1;
      LenHere(head, i) && (forall j: nat :: j < i ==> !LenHere(head, j)) && RestOfLine(head, i + 4) == ds
  {
    var head := line + "\n" + "LEN " + ds + "\n" + u;
    var i := |line| + 1;
    assert head[i..i + 4] == "LEN ";
    assert head[|line|] == '\n';
    forall j: nat | j < i ensures !LenHere(head, j) {
      if j > 0 {
        assert head[j - 1] == line[j - 1] && line[j - 1] in line;
      } else {
        LenFirstLine(line, head);
      }
    }
    var r := head[i + 4..];
    assert r == ds + "\n" + u;
    assert r[..|ds|] == ds;
    IndexOfIs(r, '\n', |ds|);
  }

  lemma LenFirstLine(line: string, head: string)
    requires line + "\n" <= head
    ensures LenHere(head, 0) ==> "LEN " <= line
  {
    if LenHere(head, 0) {
      assert forall k :: 0 <= k < 4 ==> head[k] == "LEN "[k];
      assert head[|line|] == '\n';
      assert |line| >= 4;
      assert line[..4] == head[0..4];
    }
  }

  /** The framer cuts a built frame exactly where it ends, whatever follows it on the stream. */
  lemma FrameIsCut(m: Message, more: string, cap: nat)
    requires PlainMessage(m) && |m.payload| <= IPC_MSG_HARD_CAP && HeaderSize(m, true) < cap && |Frame(m, true)| <= cap
    ensures Receive(Frame(m, true) + more, cap) == Framed(|Frame(m, true)|)
  {
    hide Need, Plain, FindSep, Glue, HeaderLines;
    var s, lines := Frame(m, true) + more, HeaderLines(m, true);
    HeaderLinesAreLines(m, true);
    FindSepGlued(lines, m.payload + more);
    assert s == Glue(lines) + "\n\n" + (m.payload + more);
    var u := HeadShapeOf(m);
    NeedIs("VERB " + m.verb, |m.payload|, u);
    assert s[..HeaderSize(m, true)] == Glue(lines) + "\n\n";
  }

  /** The bytes of a built header after its LEN line. */
  lemma HeadShapeOf(m: Message) returns (u: string)
    requires PlainMessage(m)
    ensures Glue(HeaderLines(m, true)) + "\n\n" == "VERB " + m.verb + "\n" + "LEN " + Decimal(|m.payload|) + "\n" + u
    ensures '\n' !in "VERB " + m.verb && !("LEN " <= "VERB " + m.verb)
    ensures (Glue(HeaderLines(m, true)) + "\n\n")[0] != '\n'
  {
    hide Decimal;
    var lines := HeaderLines(m, true);
    var t := lines[1..];
    assert lines[0] == "VERB " + m.verb && lines[0][0] == 'V' && t[0] == "LEN " + Decimal(|m.payload|);
    if |t| == 1 {
      u := "\n";
    } else {
      u := Glue(t[1..]) + "\n\n";
      assert Glue(t) == t[0] + "\n" + Glue(t[1..]);
    }
  }

  /** Reading frames off a stream until it ends. */
  function ReadAll(s: string, cap: nat): Option<seq<Message>>
    decreases |s|
  {
    if s == [] then Some([])
    else
      var r := Receive(s, cap);
      if !r.Framed? || r.total == 0 || r.total > |s| || Decoded(s[..r.total]).None? then None
      else match ReadAll(s[r.total..], cap)
        case None => None
        case Some(ms) => Some([Decoded(s[..r.total]).value] + ms)
  }

  function Frames(ms: seq<Message>): string { if ms == [] then [] else Frame(ms[0], true) + Frames(ms[1..]) }

  ghost predicate Sendable(m: Message, cap: nat) {
    PlainMessage(m) && |m.payload| <= IPC_MSG_HARD_CAP && HeaderSize(m, true) < cap && |Frame(m, true)| <= cap
  }

  /** A stream of built frames decodes to exactly the messages that were sent, in order. */
  lemma {:induction false} StreamRoundTrip(ms: seq<Message>, cap: nat)
    requires forall i :: 0 <= i < |ms| ==> Sendable(ms[i], cap)
    ensures ReadAll(Frames(ms), cap) == Some(ms)
  {
    hide Receive, Decoded, PlainMessage, HeaderLines, Glue;
    if ms != [] {
      var s, f := Frames(ms), Frame(ms[0], true);
      FrameIsCut(ms[0], Frames(ms[1..]), cap);
      RoundTrip(ms[0], true);
      assert s[..|f|] == f && s[|f|..] == Frames(ms[1..]);
      StreamRoundTrip(ms[1..], cap);
      assert [ms[0]] + ms[1..] == ms;
    }
  }
}
