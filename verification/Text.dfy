/** Byte strings as the C sources scan them. A byte is a character here. */
module Text {

  const NUL: char := '\0'

  /** memchr: the first place of c, or the length. */
  function IndexOf(s: string, c: char): (i: nat)
    ensures i <= |s| && c !in s[..i] && (i < |s| ==> s[i] == c)
  {
    if s == [] || s[0] == c then 0
    else
      var i := 1 + IndexOf(s[1..], c);
      assert s[..i] == [s[0]] + s[1..][..i - 1];
      i
  }

  lemma {:induction false} IndexOfIs(s: string, c: char, i: nat)
    requires i <= |s| && c !in s[..i] && (i < |s| ==> s[i] == c)
    ensures IndexOf(s, c) == i
  {
    if i > 0 {
      assert s[0] in s[..i];
      assert forall d :: d in s[1..][..i - 1] ==> d in s[..i];
      IndexOfIs(s[1..], c, i - 1);
    }
  }

  /** memchr or strchr from a cursor on. */
  method FindChar(s: string, p: nat, c: char) returns (i: nat)
    requires p <= |s|
    ensures p <= i <= |s| && i - p == IndexOf(s[p..], c)
  {
    i := p;
    while i < |s| && s[i] != c
      invariant p <= i <= |s| && c !in s[p..i]
    {
      i := i + 1;
    }
    assert s[p..][..i - p] == s[p..i];
    IndexOfIs(s[p..], c, i - p);
  }

  /** What a C string function sees of a buffer. */
  function CString(s: string): (r: string)
    ensures r <= s && NUL !in r
  {
    s[..IndexOf(s, NUL)]
  }

  function SkipSpaces(s: string): (r: string)
    ensures |r| <= |s| && (r != [] ==> r[0] != ' ')
    ensures forall c :: c in r ==> c in s
  {
    if s != [] && s[0] == ' ' then SkipSpaces(s[1..]) else s
  }

  /** What is cut off: nothing but spaces in front, and nothing in front of the first NUL. */
  lemma {:induction false} SkipSpacesIs(s: string)
    ensures var r := SkipSpaces(s); r == s[|s| - |r|..] && forall i :: 0 <= i < |s| - |r| ==> s[i] == ' '
    ensures var r := CString(s); |r| < |s| ==> s[|r|] == NUL
  {
    if s != [] && s[0] == ' ' {
      var r, t := SkipSpaces(s), s[1..];
      SkipSpacesIs(t);
      assert t[|t| - |r|..] == s[|s| - |r|..];
      forall i | 0 < i < |s| - |r| ensures s[i] == ' ' { assert s[i] == t[i - 1]; }
    }
  }

  /** Lines, each ended by a newline. */
  function Join(lines: seq<string>): string { if lines == [] then [] else lines[0] + "\n" + Join(lines[1..]) }

  /** The lines of a text, the last one being what follows its last newline. */
  function Lines(text: string): seq<string>
    decreases |text|
  {
    var eol := IndexOf(text, '\n');
    if eol == |text| then [text] else [text[..eol]] + Lines(text[eol + 1..])
  }

  /** Non-empty lines without a newline inside. */
  ghost predicate AreLines(lines: seq<string>) {
    forall i :: 0 <= i < |lines| ==> lines[i] != [] && '\n' !in lines[i]
  }

  /** The lines before the first empty one; none if there is no empty line. */
  datatype Head = Head(lines: seq<string>, rest: string) | NoHead

  function SplitHead(buf: string): (h: Head)
    ensures h.Head? ==> AreLines(h.lines) && buf == Join(h.lines) + "\n" + h.rest
    decreases |buf|
  {
    var eol := IndexOf(buf, '\n');
    if eol == |buf| then NoHead
    else if eol == 0 then assert buf == Join([]) + "\n" + buf[1..]; Head([], buf[1..])
    else
      match SplitHead(buf[eol + 1..])
      case NoHead => NoHead
      case Head(lines, rest) =>
        assert buf == buf[..eol] + "\n" + buf[eol + 1..];
        assert ([buf[..eol]] + lines)[1..] == lines;
        assert buf == buf[..eol] + "\n" + Join(lines) + "\n" + rest;
        Head([buf[..eol]] + lines, rest)
  }

  /** The first line of a text that starts with it. */
  lemma FirstLineIs(line: string, tail: string)
    requires '\n' !in line
    ensures var s := line + "\n" + tail;
      IndexOf(s, '\n') == |line| && s[..|line|] == line && s[|line| + 1..] == tail
  {
    var s := line + "\n" + tail;
    assert s[..|line|] == line;
    IndexOfIs(s, '\n', |line|);
  }

  lemma LinesCons(line: string, tail: string)
    requires '\n' !in line
    ensures Lines(line + "\n" + tail) == [line] + Lines(tail)
  {
    hide IndexOf;
    FirstLineIs(line, tail);
  }

  lemma LinesOne(line: string)
    requires '\n' !in line
    ensures Lines(line) == [line]
  {
    assert line[..|line|] == line;
    IndexOfIs(line, '\n', |line|);
  }

  lemma Regroup(a: string, b: string, c: string, d: string)
    ensures a + b + c + d == a + (b + c + d)
  {
  }

  lemma {:induction false} SplitHeadIs(lines: seq<string>, rest: string)
    requires AreLines(lines)
    ensures SplitHead(Join(lines) + "\n" + rest) == Head(lines, rest)
  {
    if lines == [] {
      EmptyLineFirst(rest);
      assert Join(lines) + "\n" + rest == "\n" + rest;
    } else {
      var tail := Join(lines[1..]) + "\n" + rest;
      Regroup(lines[0] + "\n", Join(lines[1..]), "\n", rest);
      SplitHeadIs(lines[1..], rest);
      SplitHeadCons(lines[0], tail, lines[1..], rest);
      assert [lines[0]] + lines[1..] == lines;
    }
  }

  lemma EmptyLineFirst(rest: string)
    ensures SplitHead("\n" + rest) == Head([], rest)
  {
    IndexOfIs("\n" + rest, '\n', 0);
    assert ("\n" + rest)[1..] == rest;
  }

  lemma SplitHeadCons(line: string, tail: string, lines: seq<string>, rest: string)
    requires line != [] && '\n' !in line && SplitHead(tail) == Head(lines, rest)
    ensures SplitHead(line + "\n" + tail) == Head([line] + lines, rest)
  {
    hide Join, IndexOf;
    FirstLineIs(line, tail);
  }

  // ----- decimal numbers ------------------------------------------------

  function Digit(d: nat): char
    requires d < 10
  {
    "0123456789"[d]
  }

  predicate IsDigit(c: char) { '0' <= c <= '9' }

  function DigitValue(c: char): nat
    requires IsDigit(c)
  {
    c as nat - '0' as nat
  }

  /** What printf's %d, %ld and %zu write for a number that is not negative. */
  function Decimal(n: nat): (s: string)
    ensures s != [] && forall i :: 0 <= i < |s| ==> IsDigit(s[i])
  {
    if n < 10 then [Digit(n)] else Decimal(n / 10) + [Digit(n % 10)]
  }

  function Number(s: string): nat
    requires forall i :: 0 <= i < |s| ==> IsDigit(s[i])
  {
    if s == [] then 0 else 10 * Number(s[..|s| - 1]) + DigitValue(s[|s| - 1])
  }

  lemma {:induction false} NumberOfDecimal(n: nat)
    ensures Number(Decimal(n)) == n
  {
    if n < 10 {
      assert [Digit(n)][..0] == [];
    } else {
      NumberOfDecimal(n / 10);
      assert (Decimal(n / 10) + [Digit(n % 10)])[..|Decimal(n / 10)|] == Decimal(n / 10);
    }
  }

  // ----- scanning numbers -----------------------------------------------

  /** isspace in the C locale. */
  predicate White(c: char) { c == ' ' || ('\t' <= c <= '\r') }

  function SkipWhite(s: string): string { if s != [] && White(s[0]) then SkipWhite(s[1..]) else s }

  function Digits(s: string): (r: string)
    ensures forall i :: 0 <= i < |r| ==> IsDigit(r[i])
  {
    if s == [] || !IsDigit(s[0]) then [] else [s[0]] + Digits(s[1..])
  }

  lemma {:induction false} DigitsOf(w: string, rest: string)
    requires (forall i :: 0 <= i < |w| ==> IsDigit(w[i])) && rest != [] && !IsDigit(rest[0])
    ensures Digits(w + rest) == w
  {
    if w == [] {
      assert w + rest == rest;
    } else {
      DigitsOf(w[1..], rest);
      assert (w + rest)[1..] == w[1..] + rest;
    }
  }
}
