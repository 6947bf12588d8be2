/** Exactly which policy files can be appended to without losing a grant. */
module PolicyAppend {
  import opened Options
  import opened Text
  import opened Policy

  /** Every pattern-name pair that matches under p also matches under q: an earlier star with a shorter prefix, or,
      for a pattern without a star, any pattern that matches it as a name. */
  predicate Covers(q: string, p: string) {
    p != [] &&
    if p[|p| - 1] == '*' then q != [] && q[|q| - 1] == '*' && q[..|q| - 1] <= p[..|p| - 1]
    else Matches(q, p)
  }

  function Front(text: string): seq<string> { Patterns(Lines(text)[..|Lines(text)| - 1]) }

  function LastLine(text: string): string { Lines(text)[|Lines(text)| - 1] }

  /** The file is read whole with room to spare, and its last line, which no newline ends, adds a pattern within
      the first 32 that no earlier pattern covers. */
  ghost predicate Fragile(file: string) {
    && Readable(file) == file && |file| + 1 < POLICY_TEXT
    && PatternOf(LastLine(file)).Some? && |Front(file)| < MAX_PATTERNS
    && forall j :: 0 <= j < |Front(file)| ==> !Covers(Front(file)[j], PatternOf(LastLine(file)).value)
  }

  /** No text that is appended takes away a grant. */
  ghost predicate SafeToAppend(file: string) {
    forall more, cap :: Allowed(Some(file), cap) ==> Allowed(Some(file + more), cap)
  }

  // ----- lines and patterns of a longer text ----------------------------

  lemma {:induction false} LinesAppend(t: string, x: string)
    ensures |Lines(t)| >= 1 && Lines(t + x) == Lines(t)[..|Lines(t)| - 1] + Lines(LastLine(t) + x)
    ensures '\n' !in LastLine(t)
    decreases |t|
  {
    hide Lines, IndexOf;
    var eol := IndexOf(t, '\n');
    if eol == |t| {
      assert t[..eol] == t;
      LinesOne(t);
    } else {
      var line, u := t[..eol], t[eol + 1..];
      assert t == line + "\n" + u;
      assert t + x == line + "\n" + (u + x);
      LinesCons(line, u);
      LinesCons(line, u + x);
      LinesAppend(u, x);
      var l := Lines(t);
      assert l == [line] + Lines(u) && l[..|l| - 1] == [line] + Lines(u)[..|Lines(u)| - 1];
    }
  }

  lemma {:induction false} PatternsConcat(a: seq<string>, b: seq<string>)
    ensures Patterns(a + b) == Patterns(a) + Patterns(b)
  {
    hide Own;
    if a == [] {
      assert a + b == b;
    } else {
      PatternsConcat(a[1..], b);
      assert (a + b)[1..] == a[1..] + b;
      assert Own(a[0]) + (Patterns(a[1..]) + Patterns(b)) == Own(a[0]) + Patterns(a[1..]) + Patterns(b);
    }
  }

  lemma OneLineLines(line: string)
    requires '\n' !in line
    ensures Lines(line) == [line] && Patterns([line]) == Own(line)
  {
    LinesOne(line);
    assert [line][1..] == [];
  }

  /** What the scanner collects from a text and from the text with x appended. */
  lemma ScanAppend(t: string, x: string)
    ensures |Lines(t)| >= 1
    ensures Scan(t, MAX_PATTERNS) == Take(Front(t) + Own(LastLine(t)), MAX_PATTERNS)
    ensures Scan(t + x, MAX_PATTERNS) == Take(Front(t) + Patterns(Lines(LastLine(t) + x)), MAX_PATTERNS)
  {
    hide Scan, Lines, Patterns, Own;
    LinesAppend(t, x);
    LinesAppend(t, []);
    ScanIsTake(t, MAX_PATTERNS);
    ScanIsTake(t + x, MAX_PATTERNS);
    var front, last := Lines(t)[..|Lines(t)| - 1], LastLine(t);
    assert t + [] == t && last + [] == last;
    OneLineLines(last);
    PatternsConcat(front, [last]);
    PatternsConcat(front, Lines(last + x));
  }

  // ----- covering -------------------------------------------------------

  lemma CoversMatches(q: string, p: string, cap: string)
    requires Covers(q, p) && Matches(p, cap)
    ensures Matches(q, cap)
  {
  }

  /** 32 letters. */
  function Letters(n: nat): set<char>
    requires n <= 32
  {
    if n == 0 then {} else Letters(n - 1) + {(64 + n) as char}
  }

  lemma {:induction false} LettersSize(n: nat)
    requires n <= 32
    ensures |Letters(n)| == n && forall c :: c in Letters(n) ==> 64 < c as int <= 64 + n
  {
    if n > 0 { LettersSize(n - 1); }
  }

  /** The characters at place m of some patterns. */
  function At(patterns: seq<string>, m: nat): set<char> {
    if patterns == [] then {}
    else At(patterns[1..], m) + (if m < |patterns[0]| then {patterns[0][m]} else {})
  }

  lemma {:induction false} AtIs(patterns: seq<string>, m: nat)
    ensures |At(patterns, m)| <= |patterns|
    ensures forall j :: 0 <= j < |patterns| && m < |patterns[j]| ==> patterns[j][m] in At(patterns, m)
  {
    if patterns != [] {
      AtIs(patterns[1..], m);
      forall j | 0 <= j < |patterns| && m < |patterns[j]| ensures patterns[j][m] in At(patterns, m) {
        if j > 0 { assert patterns[1..][j - 1] == patterns[j]; }
      }
    }
  }

  lemma FreeLetter(patterns: seq<string>, m: nat) returns (c: char)
    requires |patterns| < MAX_PATTERNS
    ensures forall j :: 0 <= j < |patterns| && m < |patterns[j]| ==> patterns[j][m] != c
  {
    AtIs(patterns, m);
    LettersSize(32);
    c := Outside(Letters(32), At(patterns, m));
  }

  lemma {:induction false} Outside(a: set<char>, b: set<char>) returns (c: char)
    requires |a| > |b|
    ensures c in a && c !in b
    decreases a
  {
    c :| c in a;
    if c in b { c := Outside(a - {c}, b - {c}); }
  }

  /** With fewer than 32 patterns before it, a pattern that none of them covers grants something they do not. */
  lemma UncoveredGrants(patterns: seq<string>, p: string) returns (cap: string)
    requires p != [] && |patterns| < MAX_PATTERNS && forall j :: 0 <= j < |patterns| ==> !Covers(patterns[j], p)
    ensures Matches(p, cap) && !Grants(patterns, cap)
  {
    if p[|p| - 1] == '*' {
      var q := p[..|p| - 1];
      var c := FreeLetter(patterns, |q|);
      cap := q + [c];
      forall j | 0 <= j < |patterns| ensures !Matches(patterns[j], cap) {
        if Matches(patterns[j], cap) { MatchLonger(patterns[j], q, c); }
      }
    } else {
      cap := p;
    }
  }

  /** A pattern that matches q followed by c has c at that place, or is a star with a prefix of q. */
  lemma MatchLonger(r: string, q: string, c: char)
    requires Matches(r, q + [c])
    ensures (|q| < |r| && r[|q|] == c) || (r[|r| - 1] == '*' && r[..|r| - 1] <= q)
  {
    var cap := q + [c];
    if r[|r| - 1] == '*' {
      var s := r[..|r| - 1];
      if |s| <= |q| { assert s == cap[..|s|] == q[..|s|]; } else { assert s == cap && r[|q|] == s[|q|] == c; }
    }
  }

  // ----- the theorem ----------------------------------------------------

  lemma TakeKeepsGrant(p: seq<string>, q: seq<string>, cap: string)
    requires Grants(Take(p, MAX_PATTERNS), cap)
    ensures Grants(Take(p + q, MAX_PATTERNS), cap)
  {
    hide Matches;
    var i :| 0 <= i < |Take(p, MAX_PATTERNS)| && Matches(Take(p, MAX_PATTERNS)[i], cap);
    assert Take(p + q, MAX_PATTERNS)[i] == Take(p, MAX_PATTERNS)[i];
  }

  /** A grant of a file that is not fragile comes from the lines before the last. */
  lemma GrantIsEarlier(front: seq<string>, own: seq<string>, cap: string)
    requires |own| <= 1 && Grants(Take(front + own, MAX_PATTERNS), cap)
    requires own != [] && |front| < MAX_PATTERNS ==> exists j :: 0 <= j < |front| && Covers(front[j], own[0])
    ensures Grants(Take(front, MAX_PATTERNS), cap)
  {
    hide Matches, Covers;
    var all := Take(front + own, MAX_PATTERNS);
    var i :| 0 <= i < |all| && Matches(all[i], cap);
    if i < |front| {
      assert Take(front, MAX_PATTERNS)[i] == all[i];
    } else {
      var j :| 0 <= j < |front| && Covers(front[j], own[0]);
      CoversMatches(front[j], own[0], cap);
      assert Take(front, MAX_PATTERNS)[j] == front[j];
    }
  }

  lemma NotFragileIsSafe(file: string, more: string, cap: string)
    requires !Fragile(file) && Allowed(Some(file), cap)
    ensures Allowed(Some(file + more), cap)
  {
    hide Scan, Matches, Readable, Lines, Patterns, PatternOf, Covers, Grants, Take;
    ReadableAppend(file, more);
    var t := Readable(file);
    var x :| Readable(file + more) == t + x && (x == [] || t == file);
    if x == [] {
      assert t + x == t;
    } else {
      RoomLeft(file, more);
      ScanAppend(t, x);
      OwnIs(LastLine(t));
      GrantIsEarlier(Front(t), Own(LastLine(t)), cap);
      TakeKeepsGrant(Front(t), Patterns(Lines(LastLine(t) + x)), cap);
    }
  }

  /** Only a file that leaves room in the buffer shows what is appended. */
  lemma RoomLeft(file: string, more: string)
    ensures |file| + 1 >= POLICY_TEXT ==> Readable(file + more) == Readable(file)
  {
    if |file| + 1 >= POLICY_TEXT {
      var cut := if |file| < POLICY_TEXT then file else file[..POLICY_TEXT - 1];
      assert file + more == file || (file + more)[..POLICY_TEXT - 1] == cut;
      if |file + more| < POLICY_TEXT { assert more == [] && file + more == file; }
    }
  }

  /** One more letter on the last line turns its pattern into one that matches a single other name. */
  lemma LongerPattern(line: string, p: string, cap: string) returns (c: char)
    requires PatternOf(line) == Some(p)
    ensures c != '\n' && c != NUL && PatternOf(line + [c]).Some? && !Matches(PatternOf(line + [c]).value, cap)
  {
    hide PatternOf, Matches;
    ReadIsDeclared(line, p);
    var a, b, e :| Around(line, a, b, p, e);
    c := if cap == p + e + ['x'] then 'y' else 'x';
    var p' := p + e + [c];
    LongerDeclared(line, a, b, p, e, c);
    DeclaredIsRead(line + [c], p');
    LetterEnds(p', c, cap);
    assert (p + e + ['x'])[|p + e|] == 'x';
  }

  lemma LetterEnds(p: string, c: char, cap: string)
    requires p != [] && p[|p| - 1] == c && c != '*' && p != cap
    ensures !Matches(p, cap)
  {
  }

  lemma LongerDeclared(line: string, a: string, b: string, p: string, e: string, c: char)
    requires Around(line, a, b, p, e) && p != [] && !Blank(p[0]) && !Blank(c)
    ensures Declares(line + [c], p + e + [c])
  {
    var p' := p + e + [c];
    assert p'[0] == p[0] && p'[|p'| - 1] == c;
    var w := a + "allow " + b;
    assert line == w + p + e;
    Tail(w, p, e, [c]);
    assert Around(line + [c], a, b, p', "");
  }

  lemma Tail(w: string, p: string, e: string, c: string)
    ensures w + p + e + c == w + (p + e + c) + ""
  {
  }

  lemma FragileIsUnsafe(file: string) returns (more: string, cap: string)
    requires Fragile(file)
    ensures Allowed(Some(file), cap) && !Allowed(Some(file + more), cap)
  {
    hide Scan, Matches, Lines, Patterns, PatternOf, Covers, CString;
    var last, front := LastLine(file), Front(file);
    var p := PatternOf(last).value;
    PatternNotEmpty(last);
    cap := UncoveredGrants(front, p);
    var c := LongerPattern(last, p, cap);
    more := [c];
    ScanAppend(file, more);
    LinesAppend(file, []);
    OneLineLines(last + [c]);
    OwnIs(last);
    OwnIs(last + [c]);
    ReadableMore(file, c);
    var old', new' := front + [p], front + Own(last + [c]);
    assert Scan(file, MAX_PATTERNS) == old' && Scan(file + more, MAX_PATTERNS) == new';
    assert Matches(old'[|front|], cap);
    NothingGrants(front, Own(last + [c])[0], cap);
  }

  lemma NothingGrants(front: seq<string>, p: string, cap: string)
    requires !Grants(front, cap) && !Matches(p, cap)
    ensures !Grants(front + [p], cap)
  {
    hide Matches;
    var all := front + [p];
    forall i | 0 <= i < |all| ensures !Matches(all[i], cap) {
      if i < |front| { assert all[i] == front[i]; }
    }
  }

  lemma PatternNotEmpty(line: string)
    requires PatternOf(line).Some?
    ensures PatternOf(line).value != []
  {
  }

  lemma ReadableMore(file: string, c: char)
    requires Readable(file) == file && |file| + 1 < POLICY_TEXT && c != NUL
    ensures Readable(file + [c]) == file + [c]
  {
    var i := IndexOf(file, NUL);
    assert file[..i] == file ==> i == |file|;
    assert NUL !in file + [c];
    ReadableShort(file + [c]);
  }

  /** A policy file can be appended to without losing a grant, whatever is appended, if and only if it is not
      fragile. Files of whole lines, files the reader cuts off, and unterminated lines that allow nothing new are
      safe. */
  lemma SafeExactlyIfNotFragile(file: string)
    ensures SafeToAppend(file) <==> !Fragile(file)
  {
    hide Allowed, Fragile;
    if Fragile(file) {
      var more, cap := FragileIsUnsafe(file);
      assert !(Allowed(Some(file), cap) ==> Allowed(Some(file + more), cap));
    } else {
      forall more, cap | Allowed(Some(file), cap) ensures Allowed(Some(file + more), cap) {
        NotFragileIsSafe(file, more, cap);
      }
    }
  }
}
