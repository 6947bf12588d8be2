/** The allow list of an agent: load_allow_patterns in agentd.c and the matcher in broker.c. */
module Policy {
  import opened Options
  import opened Text
  import opened Broker

  const POLICY_TEXT := 8192
  const MAX_PATTERNS := 32

  predicate Blank(c: char) { c == ' ' || c == '\t' }

  function SkipBlanks(s: string): (r: string)
    ensures |r| <= |s| && r == s[|s| - |r|..] && (r != [] ==> !Blank(r[0]))
    ensures forall i :: 0 <= i < |s| - |r| ==> Blank(s[i])
  {
    if s != [] && Blank(s[0]) then SkipBlanks(s[1..]) else s
  }

  function TrimBlanks(s: string): (r: string)
    ensures r <= s && (r != [] ==> !Blank(r[|r| - 1]))
    ensures forall i :: |r| <= i < |s| ==> Blank(s[i])
  {
    if s != [] && Blank(s[|s| - 1]) then TrimBlanks(s[..|s| - 1]) else s
  }

  // ----- the scanner ----------------------------------------------------

  /** The pattern one line adds. */
  function PatternOf(line: string): Option<string> {
    var l := SkipBlanks(line);
    if "allow " <= l then
      var p := TrimBlanks(SkipBlanks(l[6..]));
      if p == [] then None else Some(p)
    else None
  }

  function Own(line: string): seq<string> { if PatternOf(line).Some? then [PatternOf(line).value] else [] }

  /** What the scanner collects from the text when it has room for n more patterns. */
  function Scan(text: string, n: nat): seq<string>
    decreases |text|
  {
    if text == [] || n == 0 then []
    else
      var eol := IndexOf(text, '\n');
      var own := Own(text[..eol]);
      if eol == |text| then own else own + Scan(text[eol + 1..], n - |own|)
  }

  method ScanPatterns(text: string, n: nat) returns (patterns: seq<string>)
    ensures patterns == Scan(text, n)
  {
    hide IndexOf, Own, PatternOf, Scan;
    patterns := [];
    var line := 0;
    assert text[0..] == text;
    while line < |text| && |patterns| < n
      invariant line <= |text| && |patterns| <= n
      invariant Scan(text, n) == patterns + Scan(text[line..], n - |patterns|)
    {
      var eol := FindChar(text, line, '\n');
      ScanLine(text, line, eol, n - |patterns|);
      ghost var own, was := Own(text[line..eol]), patterns;
      OwnIs(text[line..eol]);
      var p := PatternOf(text[line..eol]);
      if p.Some? { patterns := patterns + [p.value]; }
      assert patterns == was + own;
      if eol == |text| { return; }
      assert was + (own + Scan(text[eol + 1..], n - |patterns|)) == was + own + Scan(text[eol + 1..], n - |patterns|);
      line := eol + 1;
    }
    ScanEnds(text[line..], n - |patterns|);
  }

  lemma OwnIs(line: string)
    ensures Own(line) == if PatternOf(line).Some? then [PatternOf(line).value] else []
  {
  }

  lemma ScanEnds(text: string, n: nat)
    requires text == [] || n == 0
    ensures Scan(text, n) == []
  {
  }

  lemma ScanLine(text: string, line: nat, eol: nat, n: nat)
    requires line < |text| && line <= eol <= |text| && eol - line == IndexOf(text[line..], '\n') && n > 0
    ensures |Own(text[line..eol])| <= n
    ensures Scan(text[line..], n) == Own(text[line..eol]) +
      (if eol == |text| then [] else Scan(text[eol + 1..], n - |Own(text[line..eol])|))
  {
    hide IndexOf, PatternOf;
    assert text[line..][..eol - line] == text[line..eol];
    if eol < |text| { assert text[line..][eol - line + 1..] == text[eol + 1..]; }
  }

  // ----- the matcher ----------------------------------------------------

  /** Exact, or a prefix followed by a star. */
  predicate Matches(pattern: string, name: string) {
    pattern != [] &&
    if pattern[|pattern| - 1] == '*' then pattern[..|pattern| - 1] <= name else pattern == name
  }

  ghost predicate Grants(patterns: seq<string>, name: string) {
    exists i :: 0 <= i < |patterns| && Matches(patterns[i], name)
  }

  method PolicyCheck(name: string, patterns: seq<string>) returns (ok: bool)
    ensures ok <==> Grants(patterns, name)
  {
    var i := 0;
    while i < |patterns|
      invariant 0 <= i <= |patterns| && forall j :: 0 <= j < i ==> !Matches(patterns[j], name)
    {
      if Matches(patterns[i], name) { return true; }
      i := i + 1;
    }
    return false;
  }

  // ----- the rule -------------------------------------------------------

  /** What read_small_file leaves in the buffer, as a C string. */
  function Readable(file: string): string {
    CString(if |file| < POLICY_TEXT then file else file[..POLICY_TEXT - 1])
  }

  /** The broker's decision on a capability for an agent whose policy file is `file`, if it has one. */
  ghost predicate Allowed(file: Option<string>, cap: string) {
    file.Some? && Grants(Scan(Readable(file.value), MAX_PATTERNS), cap)
  }

  ghost predicate AllBlank(s: string) { forall i :: 0 <= i < |s| ==> Blank(s[i]) }

  /** A line that allows p: the word, blanks around, and p neither empty nor starting or ending in a blank. */
  ghost predicate Declares(line: string, p: string) {
    && p != [] && !Blank(p[0]) && !Blank(p[|p| - 1])
    && exists a, b, c :: Around(line, a, b, p, c)
  }

  ghost predicate Around(line: string, a: string, b: string, p: string, c: string) {
    AllBlank(a) && AllBlank(b) && AllBlank(c) && line == a + "allow " + b + p + c
  }

  lemma {:induction false} SkipBlanksIs(a: string, s: string)
    requires AllBlank(a) && (s != [] ==> !Blank(s[0]))
    ensures SkipBlanks(a + s) == s
  {
    if a == [] { assert a + s == s; }
    else {
      SkipBlanksIs(a[1..], s);
      assert (a + s)[1..] == a[1..] + s;
    }
  }

  lemma {:induction false} TrimBlanksIs(s: string, c: string)
    requires AllBlank(c) && (s != [] ==> !Blank(s[|s| - 1]))
    ensures TrimBlanks(s + c) == s
  {
    if c == [] { assert s + c == s; }
    else {
      TrimBlanksIs(s, c[..|c| - 1]);
      assert (s + c)[..|s + c| - 1] == s + c[..|c| - 1];
    }
  }

  /** The scanner reads p off a line exactly when the line declares p. */
  lemma PatternOfIsDeclared(line: string, p: string)
    ensures PatternOf(line) == Some(p) <==> Declares(line, p)
  {
    if Declares(line, p) { DeclaredIsRead(line, p); }
    if PatternOf(line) == Some(p) { ReadIsDeclared(line, p); }
  }

  lemma DeclaredIsRead(line: string, p: string)
    requires Declares(line, p)
    ensures PatternOf(line) == Some(p)
  {
    var a, b, c :| Around(line, a, b, p, c);
    var l := "allow " + (b + (p + c));
    assert line == a + l;
    SkipBlanksIs(a, l);
    assert l[6..] == b + (p + c);
    SkipBlanksIs(b, p + c);
    TrimBlanksIs(p, c);
  }

  lemma SkipBlanksSplits(s: string) returns (a: string)
    ensures AllBlank(a) && s == a + SkipBlanks(s)
  {
    a := s[..|s| - |SkipBlanks(s)|];
  }

  lemma TrimBlanksSplits(s: string) returns (c: string)
    ensures AllBlank(c) && s == TrimBlanks(s) + c
  {
    c := s[|TrimBlanks(s)|..];
  }

  lemma ReadIsDeclared(line: string, p: string)
    requires PatternOf(line) == Some(p)
    ensures Declares(line, p)
  {
    hide SkipBlanks, TrimBlanks, AllBlank;
    var l := SkipBlanks(line);
    var a := SkipBlanksSplits(line);
    var b := SkipBlanksSplits(l[6..]);
    var c := TrimBlanksSplits(SkipBlanks(l[6..]));
    WordSplits(l, "allow ");
    Regroup(a, "allow ", b, p, c);
    assert Around(line, a, b, p, c);
  }

  lemma WordSplits(l: string, w: string)
    requires w <= l
    ensures l == w + l[|w|..]
  {
  }

  lemma Regroup(a: string, w: string, b: string, p: string, c: string)
    ensures a + w + b + p + c == a + (w + (b + (p + c)))
  {
  }

  function Patterns(lines: seq<string>): seq<string> {
    if lines == [] then [] else Own(lines[0]) + Patterns(lines[1..])
  }

  function Take(s: seq<string>, n: nat): seq<string> { if |s| <= n then s else s[..n] }

  /** The scanner collects the first n of all the patterns declared, line by line. */
  lemma {:induction false} ScanIsTake(text: string, n: nat)
    ensures Scan(text, n) == Take(Patterns(Lines(text)), n)
    decreases |text|
  {
    hide IndexOf, PatternOf;
    var eol := IndexOf(text, '\n');
    if text == [] {
      NoPatterns();
    } else if n > 0 {
      var own := Own(text[..eol]);
      if eol == |text| {
        assert text[..eol] == text && [text][1..] == [];
      } else {
        var rest := Lines(text[eol + 1..]);
        assert ([text[..eol]] + rest)[1..] == rest;
        ScanIsTake(text[eol + 1..], n - |own|);
        TakeCons(own, Patterns(rest), n);
      }
    }
  }

  lemma NoPatterns()
    ensures Patterns(Lines([])) == []
  {
    assert Lines([])[1..] == [] && Own([]) == [];
  }

  lemma TakeCons(own: seq<string>, rest: seq<string>, n: nat)
    requires |own| <= 1 <= n
    ensures Take(own + rest, n) == own + Take(rest, n - |own|)
  {
  }

  /** The line allows something; it allows cap in particular. */
  ghost predicate Allows(line: string) { exists p :: Declares(line, p) }

  ghost predicate AllowsCap(line: string, cap: string) {
    Declares(line, cap) || exists k :: 0 <= k <= |cap| && Declares(line, cap[..k] + "*")
  }

  /** A pattern matches exactly its own text, and if it is a beginning of the name and a star, the name. */
  lemma MatchesIs(pattern: string, name: string)
    ensures Matches(pattern, name) <==>
      pattern != [] && (pattern == name || exists k :: 0 <= k <= |name| && pattern == name[..k] + "*")
  {
    if pattern != [] {
      var front := pattern[..|pattern| - 1];
      assert pattern == front + [pattern[|pattern| - 1]];
      if pattern[|pattern| - 1] == '*' && front <= name { assert pattern == name[..|front|] + "*"; }
    }
  }

  ghost function AllowCount(lines: seq<string>): nat {
    if lines == [] then 0 else (if Allows(lines[0]) then 1 else 0) + AllowCount(lines[1..])
  }

  /** Line k allows cap, and fewer than n lines before it allow anything. */
  ghost predicate RuleAt(lines: seq<string>, n: nat, cap: string, k: nat) {
    k < |lines| && AllowsCap(lines[k], cap) && AllowCount(lines[..k]) < n
  }

  lemma OwnAllows(line: string, cap: string)
    ensures |Own(line)| == (if Allows(line) then 1 else 0)
    ensures AllowsCap(line, cap) <==> Own(line) != [] && Matches(Own(line)[0], cap)
  {
    hide PatternOf, Declares, Matches;
    forall p ensures PatternOf(line) == Some(p) <==> Declares(line, p) { PatternOfIsDeclared(line, p); }
    forall p | Declares(line, p) ensures p != [] { DeclaredIsNotEmpty(line, p); }
    if Own(line) != [] { MatchesIs(Own(line)[0], cap); }
  }

  lemma DeclaredIsNotEmpty(line: string, p: string)
    requires Declares(line, p)
    ensures p != []
  {
  }

  lemma RuleShift(lines: seq<string>, n: nat, m: nat, cap: string, k: nat)
    requires lines != [] && n == m + (if Allows(lines[0]) then 1 else 0)
    ensures RuleAt(lines, n, cap, k + 1) <==> RuleAt(lines[1..], m, cap, k)
  {
    hide Allows, AllowsCap;
    if k < |lines| - 1 { assert lines[..k + 1][1..] == lines[1..][..k]; }
  }

  lemma RuleCons(lines: seq<string>, n: nat, m: nat, cap: string)
    requires lines != [] && n > 0 && n == m + (if Allows(lines[0]) then 1 else 0)
    ensures (exists k: nat :: RuleAt(lines, n, cap, k)) <==>
      AllowsCap(lines[0], cap) || exists k: nat :: RuleAt(lines[1..], m, cap, k)
  {
    hide Allows, AllowsCap;
    var tail := lines[1..];
    if AllowsCap(lines[0], cap) { assert lines[..0] == [] && RuleAt(lines, n, cap, 0); }
    if k: nat :| RuleAt(tail, m, cap, k) { RuleShift(lines, n, m, cap, k); assert RuleAt(lines, n, cap, k + 1); }
    if k: nat :| RuleAt(lines, n, cap, k) {
      if k > 0 { RuleShift(lines, n, m, cap, k - 1); assert RuleAt(tail, m, cap, k - 1); }
    }
  }

  lemma {:induction false} TakeGrants(lines: seq<string>, n: nat, cap: string)
    ensures Grants(Take(Patterns(lines), n), cap) <==> exists k: nat :: RuleAt(lines, n, cap, k)
  {
    hide Own, AllowsCap, Allows, Matches, RuleAt, Grants, Take;
    if lines == [] || n == 0 {
      TakeGrantsNone(lines, n, cap);
    } else {
      OwnAllows(lines[0], cap);
      var own, tail := Own(lines[0]), lines[1..];
      var m := n - |own|;
      TakeCons(own, Patterns(tail), n);
      TakeGrants(tail, m, cap);
      GrantsCons(own, Take(Patterns(tail), m), cap);
      RuleCons(lines, n, m, cap);
    }
  }

  lemma TakeGrantsNone(lines: seq<string>, n: nat, cap: string)
    requires lines == [] || n == 0
    ensures !Grants(Take(Patterns(lines), n), cap) && forall k: nat :: !RuleAt(lines, n, cap, k)
  {
    hide Own, AllowsCap, Allows, Matches;
  }

  lemma GrantsCons(own: seq<string>, rest: seq<string>, cap: string)
    requires |own| <= 1
    ensures Grants(own + rest, cap) <==> (own != [] && Matches(own[0], cap)) || Grants(rest, cap)
  {
    hide Matches;
    var all := own + rest;
    if i :| 0 <= i < |rest| && Matches(rest[i], cap) { assert Matches(all[i + |own|], cap); }
    if own != [] && Matches(own[0], cap) { assert Matches(all[0], cap); }
  }

  /** The scanner and the matcher together decide by the rule: one of the first 32 allowing lines of the
      readable text allows the capability. */
  lemma AllowedIsTheRule(file: string, cap: string)
    ensures Allowed(Some(file), cap) <==> exists k: nat :: RuleAt(Lines(Readable(file)), MAX_PATTERNS, cap, k)
  {
    hide Scan, Readable, Lines, Patterns, RuleAt, Grants;
    ScanIsTake(Readable(file), MAX_PATTERNS);
    TakeGrants(Lines(Readable(file)), MAX_PATTERNS, cap);
  }

  // ----- appending ------------------------------------------------------

  predicate WholeLines(file: string) { file == [] || file[|file| - 1] == '\n' }

  lemma NewlineInside(t: string)
    requires t != [] && t[|t| - 1] == '\n'
    ensures IndexOf(t, '\n') < |t|
  {
    assert t[..|t|] == t && t[|t| - 1] in t;
  }

  lemma {:induction false} PatternsAppend(t: string, x: string)
    requires WholeLines(t)
    ensures Patterns(Lines(t)) <= Patterns(Lines(t + x))
    decreases |t|
  {
    hide IndexOf, Own, Lines, Patterns;
    if t == [] {
      NoPatterns();
    } else {
      var eol := IndexOf(t, '\n');
      NewlineInside(t);
      var line, u := t[..eol], t[eol + 1..];
      assert t == line + "\n" + u;
      assert u != [] ==> u[|u| - 1] == t[|t| - 1];
      assert t + x == line + "\n" + (u + x);
      PatternsAppend(u, x);
      LineCons(line, u);
      LineCons(line, u + x);
    }
  }

  /** The patterns of a first line come first. */
  lemma LineCons(line: string, u: string)
    requires '\n' !in line
    ensures Patterns(Lines(line + "\n" + u)) == Own(line) + Patterns(Lines(u))
  {
    hide IndexOf, Own;
    FirstLineIs(line, u);
    assert ([line] + Lines(u))[1..] == Lines(u);
  }

  /** Reading a longer file shows the old text followed by something, or no more than before. */
  lemma ReadableAppend(file: string, more: string)
    ensures exists x :: Readable(file + more) == Readable(file) + x && (x == [] || Readable(file) == file)
  {
    var cut := if |file| < POLICY_TEXT then file else file[..POLICY_TEXT - 1];
    var long := if |file + more| < POLICY_TEXT then file + more else (file + more)[..POLICY_TEXT - 1];
    assert cut <= long;
    var i := IndexOf(cut, NUL);
    assert long[..i] == cut[..i];
    if i < |cut| {
      IndexOfIs(long, NUL, i);
      assert Readable(file + more) == Readable(file) + [];
    } else if |file| < POLICY_TEXT {
      assert Readable(file) == file;
      var j := IndexOf(long, NUL);
      assert long[..i] == cut && i <= j by { NulLater(cut, long); }
      assert Readable(file + more) == Readable(file) + long[i..j];
    } else {
      assert long == cut;
      assert Readable(file + more) == Readable(file) + [];
    }
  }

  lemma NulLater(a: string, b: string)
    requires a <= b && NUL !in a
    ensures |a| <= IndexOf(b, NUL)
  {
    assert forall k :: 0 <= k < |a| ==> b[k] == a[k] && a[k] in a;
  }

  /** Appending to a policy made of whole lines never takes a grant away. */
  lemma AppendingKeepsGrants(file: string, more: string, cap: string)
    requires WholeLines(file) && Allowed(Some(file), cap)
    ensures Allowed(Some(file + more), cap)
  {
    hide Scan, Matches, Readable, Lines, Patterns, PatternOf;
    ReadableAppend(file, more);
    var t := Readable(file);
    var x :| Readable(file + more) == t + x && (x == [] || t == file);
    if x == [] {
      assert t + x == t;
    } else {
      PatternsAppend(t, x);
      ScanIsTake(t, MAX_PATTERNS);
      ScanIsTake(t + x, MAX_PATTERNS);
      var p, q := Patterns(Lines(t)), Patterns(Lines(t + x));
      var i :| 0 <= i < |Take(p, MAX_PATTERNS)| && Matches(Take(p, MAX_PATTERNS)[i], cap);
      assert Take(q, MAX_PATTERNS)[i] == q[i] == p[i];
    }
  }

  /** On an unterminated last line the appended text changes the pattern, and the grant is gone. */
  lemma UnterminatedLineLosesGrant()
    ensures Allowed(Some("allow a"), "a") && !Allowed(Some("allow a" + "b\n"), "a")
  {
    hide Scan, Readable, Matches, Declares;
    var t, u := "allow a", "allow ab";
    ReadableShort(t);
    ReadableShort(u + "\n");
    assert "allow a" + "b\n" == u + "\n";
    assert t == "allow " + "a" && u == "allow " + "ab";
    Example("a");
    Example("ab");
    OneLine(t, "a");
    OneLine(u, "ab");
    ExampleMatches();
    assert Matches(Scan(t, MAX_PATTERNS)[0], "a");
  }

  lemma Example(p: string)
    requires p != [] && !Blank(p[0]) && !Blank(p[|p| - 1])
    ensures Declares("allow " + p, p)
  {
    assert Around("allow " + p, "", "", p, "");
  }

  lemma ExampleMatches()
    ensures Matches("a", "a") && !Matches("ab", "a")
  {
  }

  lemma ReadableShort(file: string)
    requires |file| < POLICY_TEXT && NUL !in file
    ensures Readable(file) == file
  {
    assert file[..|file|] == file;
    IndexOfIs(file, NUL, |file|);
  }

  lemma OneLine(line: string, p: string)
    requires '\n' !in line && line != [] && Declares(line, p)
    ensures Scan(line, MAX_PATTERNS) == [p] && Scan(line + "\n", MAX_PATTERNS) == [p]
  {
    hide IndexOf, PatternOf;
    DeclaredIsRead(line, p);
    var l := line + "\n";
    assert line[..|line|] == line && l[..|line|] == line && l[|line| + 1..] == [];
    IndexOfIs(line, '\n', |line|);
    IndexOfIs(l, '\n', |line|);
  }
}
