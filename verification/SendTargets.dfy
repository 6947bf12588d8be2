/** collect_send_targets of fanout-agent.c: which agents a policy text lets the fanout agent send to. */
module SendTargets {
  import opened AgentNames
  import opened Text

  const MAX_TARGETS := 16

  datatype Rule = AllowSend(t: string) | DenySend(t: string) | DenyAll | Other

  function TrimWhite(s: string): string { if s != [] && White(s[|s| - 1]) then TrimWhite(s[..|s| - 1]) else s }

  /** The target after `send:`, if it is one that is listed by name. */
  function Target(kw: string): string { if |kw| > 5 && "send:" <= kw then TrimWhite(kw[5..]) else [] }

  predicate Named(t: string) { 0 < |t| < MAX_NAME && t[0] != '*' }

  function RuleOf(line: string): Rule {
    var l := SkipWhite(line);
    if "allow " <= l then
      var t := Target(SkipWhite(l[6..]));
      if Named(t) then AllowSend(t) else Other
    else if "deny " <= l then
      var t := Target(SkipWhite(l[5..]));
      if t == "*" then DenyAll else if Named(t) then DenySend(t) else Other
    else Other
  }

  // ----- what a line says -----------------------------------------------

  ghost predicate AllWhite(s: string) { forall i :: 0 <= i < |s| ==> White(s[i]) }

  ghost predicate Around(line: string, a: string, word: string, b: string, t: string, c: string) {
    AllWhite(a) && AllWhite(b) && AllWhite(c) && line == a + word + b + "send:" + t + c
  }

  /** The line is the word and the target after `send:`, with white space around both. */
  ghost predicate Says(line: string, word: string, t: string) {
    t != [] && !White(t[|t| - 1]) && exists a, b, c :: Around(line, a, word, b, t, c)
  }

  lemma {:induction false} SkipWhiteIs(a: string, s: string)
    requires AllWhite(a) && (s != [] ==> !White(s[0]))
    ensures SkipWhite(a + s) == s
  {
    if a == [] {
      assert a + s == s;
    } else {
      SkipWhiteIs(a[1..], s);
      assert (a + s)[1..] == a[1..] + s;
    }
  }

  lemma {:induction false} TrimWhiteIs(s: string, c: string)
    requires AllWhite(c) && s != [] && !White(s[|s| - 1])
    ensures TrimWhite(s + c) == s
  {
    if c == [] {
      assert s + c == s;
    } else {
      TrimWhiteIs(s, c[..|c| - 1]);
      assert (s + c)[..|s + c| - 1] == s + c[..|c| - 1];
    }
  }

  lemma {:induction false} SkipWhiteSplits(s: string) returns (a: string)
    ensures AllWhite(a) && s == a + SkipWhite(s)
  {
    if s == [] || !White(s[0]) {
      a := [];
    } else {
      var b := SkipWhiteSplits(s[1..]);
      a := [s[0]] + b;
    }
  }

  lemma {:induction false} TrimWhiteSplits(s: string) returns (c: string)
    ensures AllWhite(c) && s == TrimWhite(s) + c && (TrimWhite(s) != [] ==> !White(TrimWhite(s)[|TrimWhite(s)| - 1]))
  {
    if s == [] || !White(s[|s| - 1]) {
      c := [];
    } else {
      var b := TrimWhiteSplits(s[..|s| - 1]);
      c := b + [s[|s| - 1]];
    }
  }

  /** The word is read off a line that says it, and the target with it. */
  lemma SaidIsRead(line: string, word: string, t: string)
    requires Says(line, word, t) && word != [] && !White(word[0])
    ensures word <= SkipWhite(line) && Target(SkipWhite(SkipWhite(line)[|word|..])) == t
  {
    hide SkipWhite, TrimWhite;
    var a, b, c :| Around(line, a, word, b, t, c);
    var kw := "send:" + (t + c);
    var l := word + (b + kw);
    assert line == a + l;
    SkipWhiteIs(a, l);
    assert l[|word|..] == b + kw;
    SkipWhiteIs(b, kw);
    assert kw[5..] == t + c;
    TrimWhiteIs(t, c);
  }

  lemma ReadIsSaid(line: string, word: string)
    requires word <= SkipWhite(line) && Target(SkipWhite(SkipWhite(line)[|word|..])) != []
    ensures Says(line, word, Target(SkipWhite(SkipWhite(line)[|word|..])))
  {
    hide SkipWhite, TrimWhite, AllWhite;
    var l := SkipWhite(line);
    var kw := SkipWhite(l[|word|..]);
    var t := Target(kw);
    var a := SkipWhiteSplits(line);
    var b := SkipWhiteSplits(l[|word|..]);
    var c := TrimWhiteSplits(kw[5..]);
    assert l == word + l[|word|..] && kw == "send:" + kw[5..];
    assert a + (word + (b + ("send:" + (t + c)))) == a + word + b + "send:" + t + c;
    assert Around(line, a, word, b, t, c);
  }

  /** Which rule a line is: the three kinds by what they say, and every other line none of them. */
  lemma RuleOfIsDeclared(line: string)
    ensures RuleOf(line) == DenyAll <==> Says(line, "deny ", "*")
    ensures forall t :: RuleOf(line) == AllowSend(t) <==> Named(t) && Says(line, "allow ", t)
    ensures forall t :: RuleOf(line) == DenySend(t) <==> Named(t) && Says(line, "deny ", t)
  {
    hide SkipWhite, Target, Says;
    var l := SkipWhite(line);
    assert !("allow " <= l && "deny " <= l) by { assert "allow " <= l ==> l[0] == 'a'; }
    forall t | Says(line, "allow ", t) ensures "allow " <= l && Target(SkipWhite(l[6..])) == t {
      SaidIsRead(line, "allow ", t);
    }
    forall t | Says(line, "deny ", t) ensures "deny " <= l && Target(SkipWhite(l[5..])) == t {
      SaidIsRead(line, "deny ", t);
    }
    if "allow " <= l && Target(SkipWhite(l[6..])) != [] { ReadIsSaid(line, "allow "); }
    if "deny " <= l && Target(SkipWhite(l[5..])) != [] { ReadIsSaid(line, "deny "); }
  }

  function Allows(lines: seq<string>): seq<string> {
    if lines == [] then [] else (if RuleOf(lines[0]).AllowSend? then [RuleOf(lines[0]).t] else []) + Allows(lines[1..])
  }

  function Denies(lines: seq<string>): seq<string> {
    if lines == [] then [] else (if RuleOf(lines[0]).DenySend? then [RuleOf(lines[0]).t] else []) + Denies(lines[1..])
  }

  predicate DeniesAll(lines: seq<string>) { exists i :: 0 <= i < |lines| && RuleOf(lines[i]) == DenyAll }

  function First(s: seq<string>, n: nat): seq<string> { if |s| <= n then s else s[..n] }

  /** The targets that are not denied, in order. */
  function Kept(targets: seq<string>, denies: seq<string>): seq<string> {
    if targets == [] then []
    else
      var rest := Kept(targets[..|targets| - 1], denies);
      var t := targets[|targets| - 1];
      if t in denies then rest else rest + [t]
  }

  /** What is promised: nothing under `deny send:*`, otherwise the first sixteen allowed targets, in order,
      less those among the first sixteen denied. */
  function Collected(text: string): seq<string> {
    var lines := Lines(text);
    if DeniesAll(lines) then [] else Kept(First(Allows(lines), MAX_TARGETS), First(Denies(lines), MAX_TARGETS))
  }

  lemma {:induction false} KeptIs(targets: seq<string>, denies: seq<string>)
    ensures forall t :: t in Kept(targets, denies) <==> t in targets && t !in denies
    ensures |Kept(targets, denies)| <= |targets|
  {
    if targets != [] {
      var front := targets[..|targets| - 1];
      KeptIs(front, denies);
      assert targets == front + [targets[|targets| - 1]];
    }
  }

  /** Dropping the denied ones keeps the others in order, repetitions included. */
  lemma {:induction false} KeptInOrder(a: seq<string>, b: seq<string>, denies: seq<string>)
    ensures Kept(a + b, denies) == Kept(a, denies) + Kept(b, denies)
  {
    hide Kept;
    if b == [] {
      assert a + b == a;
      KeptNone(denies);
    } else {
      var front, last := b[..|b| - 1], b[|b| - 1];
      assert b == front + [last];
      assert a + b == (a + front) + [last];
      KeptInOrder(a, front, denies);
      KeptSnoc(a + front, last, denies);
      KeptSnoc(front, last, denies);
    }
  }

  lemma KeptNone(denies: seq<string>)
    ensures Kept([], denies) == []
  {
  }

  lemma KeptSnoc(s: seq<string>, t: string, denies: seq<string>)
    ensures Kept(s + [t], denies) == Kept(s, denies) + (if t in denies then [] else [t])
  {
    assert (s + [t])[..|s|] == s;
  }

  lemma CollectedLists(text: string, t: string)
    ensures t in Collected(text) <==>
      && !DeniesAll(Lines(text))
      && t in First(Allows(Lines(text)), MAX_TARGETS) && t !in First(Denies(Lines(text)), MAX_TARGETS)
  {
    KeptIs(First(Allows(Lines(text)), MAX_TARGETS), First(Denies(Lines(text)), MAX_TARGETS));
  }

  /** So up to sixteen denying lines are all obeyed. */
  lemma SixteenDeniesHold(text: string, t: string)
    requires |Denies(Lines(text))| <= MAX_TARGETS && t in Collected(text)
    ensures t in Allows(Lines(text)) && t !in Denies(Lines(text)) && !DeniesAll(Lines(text))
  {
    CollectedLists(text, t);
    var a := Allows(Lines(text));
    assert t in First(a, MAX_TARGETS) ==> t in a;
  }

  // ----- the scan -------------------------------------------------------

  lemma {:induction false} AllowsSnoc(lines: seq<string>, line: string)
    ensures Allows(lines + [line]) == Allows(lines) + (if RuleOf(line).AllowSend? then [RuleOf(line).t] else [])
    ensures Denies(lines + [line]) == Denies(lines) + (if RuleOf(line).DenySend? then [RuleOf(line).t] else [])
    ensures DeniesAll(lines + [line]) <==> DeniesAll(lines) || RuleOf(line) == DenyAll
  {
    hide RuleOf;
    var all := lines + [line];
    if lines == [] {
      assert all[1..] == [];
    } else {
      assert all[1..] == lines[1..] + [line];
      AllowsSnoc(lines[1..], line);
    }
    if i :| 0 <= i < |lines| && RuleOf(lines[i]) == DenyAll { assert RuleOf(all[i]) == DenyAll; }
    if RuleOf(line) == DenyAll { assert RuleOf(all[|lines|]) == DenyAll; }
  }

  /** Line k allows or denies t by name, and is among the first sixteen that so name a target. */
  ghost predicate AllowsAt(lines: seq<string>, k: nat, t: string) {
    k < |lines| && Named(t) && Says(lines[k], "allow ", t) && |Allows(lines[..k])| < MAX_TARGETS
  }

  ghost predicate DeniesAt(lines: seq<string>, k: nat, t: string) {
    k < |lines| && Named(t) && Says(lines[k], "deny ", t) && |Denies(lines[..k])| < MAX_TARGETS
  }

  lemma FirstSnoc(s: seq<string>, t: string, u: string)
    ensures t in First(s + [u], MAX_TARGETS) <==> t in First(s, MAX_TARGETS) || (t == u && |s| < MAX_TARGETS)
  {
    if |s| < MAX_TARGETS { assert First(s + [u], MAX_TARGETS) == s + [u]; }
    else { assert First(s + [u], MAX_TARGETS) == First(s, MAX_TARGETS); }
  }

  /** The entries that are kept are those of the lines that come early enough. */
  lemma {:induction false} FirstIsEarly(lines: seq<string>, t: string)
    ensures t in First(Allows(lines), MAX_TARGETS) <==> exists k: nat :: AllowsAt(lines, k, t)
    ensures t in First(Denies(lines), MAX_TARGETS) <==> exists k: nat :: DeniesAt(lines, k, t)
  {
    hide RuleOf, Says, Named, Allows, Denies, First;
    if lines == [] {
      NoEntries();
    } else {
      var front, last := lines[..|lines| - 1], lines[|lines| - 1];
      assert lines == front + [last] && lines[..|front|] == front;
      FirstIsEarly(front, t);
      AllowsSnoc(front, last);
      RuleOfIsDeclared(last);
      assert Allows(front) + [] == Allows(front) && Denies(front) + [] == Denies(front);
      if RuleOf(last).AllowSend? { FirstSnoc(Allows(front), t, RuleOf(last).t); }
      if RuleOf(last).DenySend? { FirstSnoc(Denies(front), t, RuleOf(last).t); }
      forall k: nat | k < |front| ensures lines[..k] == front[..k] && lines[k] == front[k] {
      }
      assert forall k: nat :: k < |front| ==> AllowsAt(lines, k, t) == AllowsAt(front, k, t);
      assert forall k: nat :: k < |front| ==> DeniesAt(lines, k, t) == DeniesAt(front, k, t);
      assert forall k: nat :: AllowsAt(lines, k, t) || DeniesAt(lines, k, t) ==> k < |front| || k == |front|;
      assert AllowsAt(lines, |front|, t) <==> RuleOf(last) == AllowSend(t) && |Allows(front)| < MAX_TARGETS;
      assert DeniesAt(lines, |front|, t) <==> RuleOf(last) == DenySend(t) && |Denies(front)| < MAX_TARGETS;
    }
  }

  lemma NoEntries()
    ensures First(Allows([]), MAX_TARGETS) == [] && First(Denies([]), MAX_TARGETS) == []
  {
  }

  /** A target is collected exactly when one of the first sixteen lines that allow a target by name names it, none of
      the first sixteen that deny one does, and no line denies all. */
  lemma CollectedExactly(text: string, t: string)
    ensures var lines := Lines(text);
      t in Collected(text) <==>
        && (forall k: nat :: k < |lines| ==> !Says(lines[k], "deny ", "*"))
        && (exists k: nat :: AllowsAt(lines, k, t)) && !(exists k: nat :: DeniesAt(lines, k, t))
  {
    hide RuleOf, Says, Collected, AllowsAt, DeniesAt;
    var lines := Lines(text);
    CollectedLists(text, t);
    FirstIsEarly(lines, t);
    forall k: nat | k < |lines| ensures RuleOf(lines[k]) == DenyAll <==> Says(lines[k], "deny ", "*") {
      RuleOfIsDeclared(lines[k]);
    }
  }

  /** Put one more entry into a table, if there is room. */
  method Put(a: array<string>, n: nat, t: string, ghost all: seq<string>) returns (m: nat)
    requires a.Length == MAX_TARGETS && n <= MAX_TARGETS && a[..n] == First(all, MAX_TARGETS)
    modifies a
    ensures m <= MAX_TARGETS && a[..m] == First(all + [t], MAX_TARGETS)
  {
    m := n;
    if n < MAX_TARGETS {
      a[n] := t;
      m := n + 1;
    }
  }

  method Scan(text: string, targets: array<string>, denies: array<string>) returns (n: nat, nd: nat, denyAll: bool)
    requires targets != denies && targets.Length == MAX_TARGETS && denies.Length == MAX_TARGETS
    modifies targets, denies
    ensures n <= MAX_TARGETS && targets[..n] == First(Allows(Lines(text)), MAX_TARGETS)
    ensures nd <= MAX_TARGETS && denies[..nd] == First(Denies(Lines(text)), MAX_TARGETS)
    ensures denyAll <==> DeniesAll(Lines(text))
  {
    hide IndexOf, RuleOf, Allows, Denies, DeniesAll, First;
    n, nd, denyAll := 0, 0, false;
    var p := 0;
    ghost var seen: seq<string> := [];
    NothingYet();
    assert text[0..] == text && [] + Lines(text) == Lines(text);
    while p < |text|
      invariant p <= |text| && seen + Lines(text[p..]) == Lines(text)
      invariant n <= MAX_TARGETS && targets[..n] == First(Allows(seen), MAX_TARGETS)
      invariant nd <= MAX_TARGETS && denies[..nd] == First(Denies(seen), MAX_TARGETS)
      invariant denyAll <==> DeniesAll(seen)
    {
      var eol := FindChar(text, p, '\n');
      NextLine(text, p, eol, seen);
      var rule := RuleOf(text[p..eol]);
      AllowsSnoc(seen, text[p..eol]);
      AddNothing(Allows(seen));
      AddNothing(Denies(seen));
      match rule {
        case AllowSend(t) => n := Put(targets, n, t, Allows(seen));
        case DenySend(t) => nd := Put(denies, nd, t, Denies(seen));
        case DenyAll => denyAll := true;
        case Other =>
      }
      seen := seen + [text[p..eol]];
      if eol == |text| { return; }
      p := eol + 1;
    }
    EmptyLast(text[p..], seen);
    AddNothing(Allows(seen));
    AddNothing(Denies(seen));
  }

  lemma NothingYet()
    ensures First(Allows([]), MAX_TARGETS) == [] && First(Denies([]), MAX_TARGETS) == [] && !DeniesAll([])
  {
  }

  lemma AddNothing(s: seq<string>)
    ensures s + [] == s
  {
  }

  /** The empty text after the last newline says nothing. */
  lemma EmptyLast(s: string, seen: seq<string>)
    requires s == []
    ensures Lines(s) == [[]] && Allows(seen + [[]]) == Allows(seen) + [] && Denies(seen + [[]]) == Denies(seen) + []
    ensures DeniesAll(seen + [[]]) <==> DeniesAll(seen)
  {
    AllowsSnoc(seen, []);
  }

  lemma NextLine(text: string, p: nat, eol: nat, seen: seq<string>)
    requires p < |text| && p <= eol <= |text| && eol - p == IndexOf(text[p..], '\n')
    ensures eol == |text| ==> seen + Lines(text[p..]) == seen + [text[p..eol]]
    ensures eol < |text| ==> seen + Lines(text[p..]) == seen + [text[p..eol]] + Lines(text[eol + 1..])
  {
    hide Lines;
    var t, line := text[p..], text[p..eol];
    assert t[..eol - p] == line;
    if eol < |text| {
      assert t == line + "\n" + text[eol + 1..];
      LinesCons(line, text[eol + 1..]);
      assert seen + ([line] + Lines(text[eol + 1..])) == seen + [line] + Lines(text[eol + 1..]);
    } else {
      assert t == line;
      LinesOne(line);
    }
  }

  // ----- compaction in place --------------------------------------------

  /** Move the targets that are not denied to the front, keeping their order. */
  method Compact(targets: array<string>, n: nat, denies: array<string>, nd: nat) returns (out: nat)
    requires targets != denies && n <= targets.Length && nd <= denies.Length
    modifies targets
    ensures out <= n && targets[..out] == Kept(old(targets[..n]), denies[..nd])
  {
    out := 0;
    var i := 0;
    ghost var s := targets[..n];
    while i < n
      invariant 0 <= i <= n && out <= i && denies[..] == old(denies[..])
      invariant targets[..out] == Kept(s[..i], denies[..nd])
      invariant targets[i..n] == s[i..]
    {
      var denied, j := false, 0;
      while j < nd && !denied
        invariant 0 <= j <= nd && (denied ==> targets[i] in denies[..nd]) && (!denied ==> targets[i] !in denies[..j])
        decreases nd - j, !denied
      {
        if targets[i] == denies[j] { denied := true; } else { j := j + 1; }
      }
      assert targets[i] == targets[i..n][0] == s[i];
      assert s[..i + 1][..i] == s[..i];
      assert targets[i + 1..n] == targets[i..n][1..] == s[i + 1..];
      if !denied {
        targets[out] := targets[i];
        out := out + 1;
      }
      i := i + 1;
    }
    assert s[..n] == s;
  }

  method CollectSendTargets(text: string, targets: array<string>) returns (n: nat)
    requires targets.Length == MAX_TARGETS
    modifies targets
    ensures n <= MAX_TARGETS && targets[..n] == Collected(text)
  {
    var denies := new string[MAX_TARGETS](_ => "");
    var m, nd, denyAll := Scan(text, targets, denies);
    if denyAll { return 0; }
    n := Compact(targets, m, denies, nd);
  }

  // ----- the seventeenth deny -------------------------------------------

  function Repeat(line: string, n: nat): seq<string> { if n == 0 then [] else Repeat(line, n - 1) + [line] }

  lemma {:induction false} LinesOfJoin(lines: seq<string>)
    requires forall i :: 0 <= i < |lines| ==> '\n' !in lines[i]
    ensures Lines(Join(lines)) == lines + [[]]
  {
    hide Lines;
    if lines != [] {
      LinesCons(lines[0], Join(lines[1..]));
      LinesOfJoin(lines[1..]);
      assert [lines[0]] + (lines[1..] + [[]]) == lines + [[]];
    } else {
      LinesOne([]);
    }
  }

  lemma {:induction false} RepeatedDenies(n: nat, line: string, t: string)
    requires RuleOf(line) == DenySend(t) && '\n' !in line
    ensures |Repeat(line, n)| == n && Allows(Repeat(line, n)) == [] && !DeniesAll(Repeat(line, n))
    ensures |Denies(Repeat(line, n))| == n
    ensures forall i :: 0 <= i < n ==> Denies(Repeat(line, n))[i] == t && '\n' !in Repeat(line, n)[i]
  {
    hide RuleOf;
    if n > 0 {
      RepeatedDenies(n - 1, line, t);
      AllowsSnoc(Repeat(line, n - 1), line);
    }
  }

  lemma Trimmed(v: string)
    requires v != [] && !White(v[0]) && !White(v[|v| - 1])
    ensures SkipWhite(v) == v && TrimWhite(v) == v
  {
  }

  lemma RuleOfAllow(t: string)
    requires Named(t) && !White(t[0]) && !White(t[|t| - 1])
    ensures RuleOf("allow send:" + t) == AllowSend(t)
  {
    var l := "allow send:" + t;
    assert l[6..] == "send:" + t && ("send:" + t)[5..] == t;
    assert l[0] == 'a' && l[|l| - 1] == t[|t| - 1];
    Trimmed(t);
  }

  lemma RuleOfDeny(t: string)
    requires Named(t) && !White(t[0]) && !White(t[|t| - 1])
    ensures RuleOf("deny send:" + t) == DenySend(t)
  {
    var l := "deny send:" + t;
    assert l[5..] == "send:" + t && ("send:" + t)[5..] == t;
    assert l[0] == 'd' && l[|l| - 1] == t[|t| - 1];
    Trimmed(t);
  }

  /** A deny that comes after sixteen others is not seen: z is denied and still collected. */
  lemma SeventeenthDenyIsIgnored() returns (text: string)
    ensures "z" in Denies(Lines(text)) && "z" in Collected(text)
  {
    hide RuleOf;
    var first, other, last := "allow send:" + "z", "deny send:" + "a", "deny send:" + "z";
    RuleOfAllow("z");
    RuleOfDeny("a");
    RuleOfDeny("z");
    var many := Repeat(other, MAX_TARGETS);
    RepeatedDenies(MAX_TARGETS, other, "a");
    var lines := many + [first] + [last];
    AllowsSnoc(many, first);
    AllowsSnoc(many + [first], last);
    text := Join(lines);
    LinesOfJoin(lines);
    EmptyLast([], lines);
    var d := Denies(lines);
    assert d + [] == d && Allows(lines) + [] == Allows(lines);
    assert d == Denies(many) + ["z"] && d[|d| - 1] == "z";
    assert Allows(lines) == ["z"];
    assert First(d, MAX_TARGETS) == Denies(many);
    assert "z" !in Denies(many);
    CollectedLists(text, "z");
  }
}
