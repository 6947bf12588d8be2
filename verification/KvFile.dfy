/** The KEY=VALUE upsert of profiles.c. */
module KvFile {
  import opened Options
  import opened Text

  const KV_BUF := 4096

  datatype SetResult = Written(text: string) | Invalid | TooLong

  // ----- what kv_file_set computes --------------------------------------

  /** The part of the file that is read, as a C string. */
  function ReadBack(file: string): string { CString(if |file| < KV_BUF then file else file[..KV_BUF - 1]) }

  /** What one old line contributes: the new setting if it has the key, itself if it is not empty. */
  function Piece(line: string, key: string, kv: string): string {
    if key + "=" <= line then kv + "\n" else if line != [] then line + "\n" else []
  }

  datatype Rewritten = Rewritten(text: string, replaced: bool)

  function Rewrite(p: string, key: string, kv: string): Rewritten
    decreases |p|
  {
    if p == [] then Rewritten([], false)
    else
      var eol := IndexOf(p, '\n');
      var line := p[..eol];
      var r := if eol == |p| then Rewritten([], false) else Rewrite(p[eol + 1..], key, kv);
      Rewritten(Piece(line, key, kv) + r.text, key + "=" <= line || r.replaced)
  }

  function KeyOf(kv: string): string { kv[..IndexOf(kv, '=')] }

  /** The new file, or why there is none; the file is replaced only when there is one. */
  function KvSet(file: string, kv: string): SetResult {
    var eq := IndexOf(kv, '=');
    if eq == |kv| || eq == 0 then Invalid
    else
      var r := Rewrite(ReadBack(file), KeyOf(kv), kv);
      var text := if r.replaced then r.text else r.text + (kv + "\n");
      if |text| >= KV_BUF then TooLong else Written(text)
  }

  // ----- the loop -------------------------------------------------------

  method SetInFile(file: string, kv: string) returns (r: SetResult)
    ensures r == KvSet(file, kv)
  {
    hide IndexOf, Piece, CString, Rewrite;
    var eq := FindChar(kv, 0, '=');
    assert kv[0..] == kv;
    if eq == |kv| || eq == 0 { return Invalid; }
    var key, text := kv[..eq], ReadBack(file);
    ghost var all := Rewrite(text, key, kv);
    var neu, replaced, p := "", false, 0;
    assert text[0..] == text;
    while p < |text|
      invariant p <= |text| && |neu| < KV_BUF
      invariant all.text == neu + Rewrite(text[p..], key, kv).text
      invariant all.replaced == (replaced || Rewrite(text[p..], key, kv).replaced)
    {
      var eol := FindChar(text, p, '\n');
      ghost var next := if eol == |text| then eol else eol + 1;
      RewriteLine(text, p, eol, next, key, kv);
      var line := text[p..eol];
      Regroup(neu, Piece(line, key, kv), Rewrite(text[next..], key, kv).text);
      if key + "=" <= line {
        if |neu| + |kv| + 1 >= KV_BUF { return TooLong; }
        neu, replaced := neu + (kv + "\n"), true;
      } else if line != [] {
        if |neu| + |line| + 1 >= KV_BUF { return TooLong; }
        neu := neu + (line + "\n");
      } else {
        assert neu + [] == neu;
      }
      if eol == |text| { p := eol; break; }
      p := eol + 1;
    }
    RewriteEnds(text[p..], key, kv);
    assert all.text == neu + [] == neu;
    if !replaced {
      if |neu| + |kv| + 1 >= KV_BUF { return TooLong; }
      neu := neu + (kv + "\n");
    }
    return Written(neu);
  }

  lemma RewriteEnds(p: string, key: string, kv: string)
    requires p == []
    ensures Rewrite(p, key, kv) == Rewritten([], false)
  {
  }

  lemma Regroup(a: string, b: string, c: string)
    ensures a + (b + c) == a + b + c
  {
  }

  lemma RewriteLine(text: string, p: nat, eol: nat, next: nat, key: string, kv: string)
    requires p < |text| && p <= eol <= |text| && eol - p == IndexOf(text[p..], '\n')
    requires next == (if eol == |text| then eol else eol + 1)
    ensures var r, line := Rewrite(text[next..], key, kv), text[p..eol];
      && Rewrite(text[p..], key, kv) == Rewritten(Piece(line, key, kv) + r.text, key + "=" <= line || r.replaced)
      && Piece(line, key, kv) == (if key + "=" <= line then kv + "\n" else if line != [] then line + "\n" else [])
  {
    assert text[p..][..eol - p] == text[p..eol];
    if eol < |text| { assert text[p..][eol - p + 1..] == text[eol + 1..]; }
  }

  // ----- files as lists of lines ----------------------------------------

  /** The key of a line or an argument: what stands before its first equals sign. */
  function LineKey(line: string): Option<string> {
    var eq := IndexOf(line, '=');
    if 0 < eq < |line| then Some(line[..eq]) else None
  }

  function LineValue(line: string): string
    requires LineKey(line).Some?
  {
    line[IndexOf(line, '=') + 1..]
  }

  /** Lines of C strings. */
  ghost predicate Plain(ls: seq<string>) { forall i :: 0 <= i < |ls| ==> '\n' !in ls[i] && NUL !in ls[i] }

  predicate HasLine(ls: seq<string>, key: string) { exists i :: 0 <= i < |ls| && LineKey(ls[i]) == Some(key) }

  /** What an old line becomes: all the lines of the argument if it has the key, nothing if it is empty. */
  function PieceLines(line: string, key: string, kv: string): seq<string> {
    if LineKey(line) == Some(key) then Lines(kv) else if line != [] then [line] else []
  }

  function NewLines(ls: seq<string>, key: string, kv: string): seq<string> {
    if ls == [] then [] else PieceLines(ls[0], key, kv) + NewLines(ls[1..], key, kv)
  }

  /** The lines of the file after a set. */
  function SetLines(ls: seq<string>, kv: string): seq<string> {
    var key := KeyOf(kv);
    if HasLine(ls, key) then NewLines(ls, key, kv) else NewLines(ls, key, kv) + Lines(kv)
  }

  lemma {:induction false} JoinLines(t: string)
    ensures Join(Lines(t)) == t + "\n"
    decreases |t|
  {
    hide IndexOf;
    var eol := IndexOf(t, '\n');
    if eol == |t| {
      assert Lines(t)[1..] == [];
    } else {
      JoinLines(t[eol + 1..]);
      assert Lines(t)[1..] == Lines(t[eol + 1..]);
      assert t == t[..eol] + "\n" + t[eol + 1..];
    }
  }

  lemma {:induction false} JoinConcat(a: seq<string>, b: seq<string>)
    ensures Join(a + b) == Join(a) + Join(b)
  {
    if a == [] {
      assert a + b == b;
    } else {
      JoinConcat(a[1..], b);
      assert (a + b)[1..] == a[1..] + b;
    }
  }

  lemma {:induction false} LinesPlain(t: string)
    requires NUL !in t
    ensures Plain(Lines(t))
    decreases |t|
  {
    var eol := IndexOf(t, '\n');
    if eol < |t| { LinesPlain(t[eol + 1..]); }
  }

  /** The test the loop makes on a line is the comparison of its key. */
  lemma LineCarries(line: string, key: string)
    requires key != [] && '=' !in key
    ensures key + "=" <= line <==> LineKey(line) == Some(key)
  {
    if key + "=" <= line {
      assert line[..|key|] == key && line[|key|] == '=';
      IndexOfIs(line, '=', |key|);
    }
  }

  lemma PieceIs(line: string, key: string, kv: string)
    requires key != [] && '=' !in key
    ensures Piece(line, key, kv) == Join(PieceLines(line, key, kv))
  {
    hide Lines, IndexOf, LineKey;
    LineCarries(line, key);
    JoinLines(kv);
    assert Join([line]) == line + "\n" by { assert [line][1..] == []; }
  }

  lemma HasLineCons(ls: seq<string>, key: string)
    requires ls != []
    ensures HasLine(ls, key) <==> LineKey(ls[0]) == Some(key) || HasLine(ls[1..], key)
  {
    if i :| 0 <= i < |ls| - 1 && LineKey(ls[1..][i]) == Some(key) { assert LineKey(ls[i + 1]) == Some(key); }
    if i :| 0 < i < |ls| && LineKey(ls[i]) == Some(key) { assert LineKey(ls[1..][i - 1]) == Some(key); }
  }

  lemma {:induction false} RewriteJoin(ls: seq<string>, key: string, kv: string)
    requires Plain(ls) && key != [] && '=' !in key
    ensures Rewrite(Join(ls), key, kv) == Rewritten(Join(NewLines(ls, key, kv)), HasLine(ls, key))
  {
    hide IndexOf, LineKey, PieceLines, HasLine, Piece;
    if ls == [] {
      assert !HasLine(ls, key) by { NoLine(key); }
    } else {
      var p := Join(ls);
      FirstLineIs(ls[0], Join(ls[1..]));
      LineCarries(ls[0], key);
      PieceIs(ls[0], key, kv);
      RewriteJoin(ls[1..], key, kv);
      HasLineCons(ls, key);
      JoinConcat(PieceLines(ls[0], key, kv), NewLines(ls[1..], key, kv));
    }
  }

  lemma NoLine(key: string)
    ensures !HasLine([], key)
  {
  }

  lemma {:induction false} NewLinesPlain(ls: seq<string>, key: string, kv: string)
    requires Plain(ls) && NUL !in kv
    ensures Plain(NewLines(ls, key, kv))
  {
    hide Lines, LineKey;
    if ls != [] {
      LinesPlain(kv);
      NewLinesPlain(ls[1..], key, kv);
    }
  }

  lemma {:induction false} JoinHasNoNul(ls: seq<string>)
    requires Plain(ls)
    ensures NUL !in Join(ls)
  {
    if ls != [] { JoinHasNoNul(ls[1..]); }
  }

  lemma ReadBackAll(text: string)
    requires NUL !in text && |text| < KV_BUF
    ensures ReadBack(text) == text
  {
    assert text[..|text|] == text;
    IndexOfIs(text, NUL, |text|);
  }

  /** On any file of lines and for any argument with a key, newlines in it or not, kv_file_set is SetLines, unless the
      result is too long for its buffer. */
  lemma SetIsLines(ls: seq<string>, kv: string)
    requires Plain(ls) && |Join(ls)| < KV_BUF && LineKey(kv).Some? && NUL !in kv
    ensures Plain(SetLines(ls, kv))
    ensures KvSet(Join(ls), kv) ==
      if |Join(SetLines(ls, kv))| >= KV_BUF then TooLong else Written(Join(SetLines(ls, kv)))
  {
    hide Rewrite, Join, NewLines, HasLine, IndexOf, Lines;
    var key := KeyOf(kv);
    JoinHasNoNul(ls);
    ReadBackAll(Join(ls));
    RewriteJoin(ls, key, kv);
    JoinConcat(NewLines(ls, key, kv), Lines(kv));
    JoinLines(kv);
    NewLinesPlain(ls, key, kv);
    LinesPlain(kv);
  }

  // ----- one line per key -----------------------------------------------

  function Count(ls: seq<string>, key: string): nat {
    if ls == [] then 0 else (if LineKey(ls[0]) == Some(key) then 1 else 0) + Count(ls[1..], key)
  }

  ghost predicate OneLinePerKey(ls: seq<string>) { forall k :: Count(ls, k) <= 1 }

  /** The argument's own lines have different keys, and those other than the key it sets are new to the file. */
  ghost predicate Fits(ls: seq<string>, kv: string) {
    forall k :: Count(Lines(kv), k) <= (if k != KeyOf(kv) && Count(ls, k) > 0 then 0 else 1)
  }

  lemma {:induction false} CountConcat(a: seq<string>, b: seq<string>, k: string)
    ensures Count(a + b, k) == Count(a, k) + Count(b, k)
  {
    if a == [] {
      assert a + b == b;
    } else {
      CountConcat(a[1..], b, k);
      assert (a + b)[1..] == a[1..] + b;
    }
  }

  lemma {:induction false} CountHas(ls: seq<string>, k: string)
    ensures Count(ls, k) > 0 <==> HasLine(ls, k)
  {
    if ls != [] { CountHas(ls[1..], k); HasLineCons(ls, k); }
  }

  lemma CountPiece(line: string, key: string, kv: string, k: string)
    ensures Count(PieceLines(line, key, kv), k) ==
      if LineKey(line) == Some(key) then Count(Lines(kv), k) else if LineKey(line) == Some(k) then 1 else 0
  {
    hide Lines;
    assert [line][1..] == [];
  }

  lemma {:induction false} CountNewLines(ls: seq<string>, key: string, kv: string, k: string)
    requires Count(ls, key) <= 1
    ensures Count(NewLines(ls, key, kv), k) ==
      (if k == key then 0 else Count(ls, k)) + (if Count(ls, key) == 1 then Count(Lines(kv), k) else 0)
  {
    hide LineKey, Lines, PieceLines;
    if ls != [] {
      CountNewLines(ls[1..], key, kv, k);
      CountPiece(ls[0], key, kv, k);
      CountConcat(PieceLines(ls[0], key, kv), NewLines(ls[1..], key, kv), k);
    }
  }

  /** A set takes the lines of its key out and puts the lines of the argument in. */
  lemma CountSet(ls: seq<string>, kv: string, k: string)
    requires Count(ls, KeyOf(kv)) <= 1
    ensures Count(SetLines(ls, kv), k) == (if k == KeyOf(kv) then 0 else Count(ls, k)) + Count(Lines(kv), k)
  {
    hide LineKey, Lines, NewLines, HasLine, Count;
    var key := KeyOf(kv);
    CountHas(ls, key);
    CountNewLines(ls, key, kv, k);
    CountConcat(NewLines(ls, key, kv), Lines(kv), k);
  }

  /** A set keeps one line per key exactly when the argument fits. */
  lemma OneLineExactlyIfFits(ls: seq<string>, kv: string)
    requires OneLinePerKey(ls)
    ensures OneLinePerKey(SetLines(ls, kv)) <==> Fits(ls, kv)
  {
    hide Count, SetLines, Lines, KeyOf;
    forall k ensures Count(SetLines(ls, kv), k) == (if k == KeyOf(kv) then 0 else Count(ls, k)) + Count(Lines(kv), k) {
      CountSet(ls, kv, k);
    }
    if OneLinePerKey(SetLines(ls, kv)) {
      forall k ensures Count(Lines(kv), k) <= (if k != KeyOf(kv) && Count(ls, k) > 0 then 0 else 1) {
        assert Count(SetLines(ls, kv), k) <= 1;
      }
    }
  }

  /** An argument of a single line always fits. */
  lemma SingleLineFits(ls: seq<string>, kv: string)
    requires '\n' !in kv && LineKey(kv).Some?
    ensures Lines(kv) == [kv] && Fits(ls, kv)
  {
    hide Lines, IndexOf, Count;
    LinesOne(kv);
    forall k ensures Count([kv], k) == if KeyOf(kv) == k then 1 else 0 { CountOne(kv, k); }
  }

  lemma CountOne(line: string, k: string)
    ensures Count([line], k) == if LineKey(line) == Some(k) then 1 else 0
  {
    assert [line][1..] == [];
  }

  /** One with a newline in its value need not: here it puts b on two lines. */
  lemma NewlineDoublesKey()
    ensures var ls, kv := ["b=1"], "a=1\nb=2";
      && KvSet(Join(ls), kv) == Written("b=1\na=1\nb=2\n") && SetLines(ls, kv) == ["b=1", "a=1", "b=2"]
      && OneLinePerKey(ls) && !OneLinePerKey(SetLines(ls, kv))
  {
    hide LineKey, Count, KvSet, Lines, Join, SetLines;
    var ls, kv := ["b=1"], "a=1\nb=2";
    KeysHere();
    SetHere();
    JoinOne("b=1");
    JoinThree("b=1", "a=1", "b=2");
    SetIsLines(ls, kv);
    forall k ensures Count(ls, k) <= 1 { CountOne("b=1", k); }
    CountThree("b=1", "a=1", "b=2", "b");
  }

  lemma KeysHere()
    ensures LineKey("b=1") == Some("b") && LineKey("a=1") == Some("a") && LineKey("b=2") == Some("b")
    ensures LineKey("a=1\nb=2") == Some("a")
  {
    KeyIs("b", "1");
    KeyIs("a", "1");
    KeyIs("b", "2");
    KeyIs("a", "1\nb=2");
    assert "b" + "=" + "1" == "b=1" && "a" + "=" + "1" == "a=1" && "b" + "=" + "2" == "b=2";
    assert "a" + "=" + "1\nb=2" == "a=1\nb=2";
  }

  lemma KeyIs(key: string, value: string)
    requires key != [] && '=' !in key
    ensures LineKey(key + "=" + value) == Some(key)
  {
    LineCarries(key + "=" + value, key);
  }

  lemma SetHere()
    ensures SetLines(["b=1"], "a=1\nb=2") == ["b=1", "a=1", "b=2"]
  {
    hide LineKey, Lines, HasLine, NewLines, IndexOf;
    var kv := "a=1\nb=2";
    KeysHere();
    assert KeyOf(kv) == "a" by { KeyAgrees(kv); }
    assert kv == "a=1" + "\n" + "b=2";
    LinesCons("a=1", "b=2");
    LinesOne("b=2");
    CountOne("b=1", "a");
    CountHas(["b=1"], "a");
    NewLinesOne("b=1", "a", kv);
  }

  lemma KeyAgrees(kv: string)
    requires LineKey(kv).Some?
    ensures KeyOf(kv) == LineKey(kv).value
  {
  }

  lemma JoinOne(a: string)
    ensures Join([a]) == a + "\n"
  {
    assert [a][1..] == [];
  }

  lemma JoinThree(a: string, b: string, c: string)
    ensures Join([a, b, c]) == a + "\n" + (b + "\n" + (c + "\n"))
  {
    assert [a, b, c][1..] == [b, c] && [b, c][1..] == [c];
    JoinOne(c);
  }

  lemma CountThree(a: string, b: string, c: string, k: string)
    requires LineKey(a) == LineKey(c) == Some(k)
    ensures Count([a, b, c], k) >= 2
  {
    hide LineKey, Count;
    assert [a, b, c] == [a] + [b] + [c];
    CountConcat([a] + [b], [c], k);
    CountConcat([a], [b], k);
    CountOne(a, k);
    CountOne(c, k);
  }

  // ----- any sequence of sets -------------------------------------------

  /** The file after a sequence of calls; a refused call leaves it as it was. */
  function File(file: string, kvs: seq<string>): string {
    if kvs == [] then file
    else
      var before := File(file, kvs[..|kvs| - 1]);
      var r := KvSet(before, kvs[|kvs| - 1]);
      if r.Written? then r.text else before
  }

  /** The call is refused if there is no key or the new file would not fit the buffer. */
  predicate Takes(ls: seq<string>, kv: string) { LineKey(kv).Some? && |Join(SetLines(ls, kv))| < KV_BUF }

  function LinesAfter(kvs: seq<string>): seq<string> {
    if kvs == [] then []
    else
      var before, kv := LinesAfter(kvs[..|kvs| - 1]), kvs[|kvs| - 1];
      if Takes(before, kv) then SetLines(before, kv) else before
  }

  ghost predicate CStrings(kvs: seq<string>) { forall i :: 0 <= i < |kvs| ==> NUL !in kvs[i] }

  /** From an empty file, after any sequence of calls, the file is the lines computed, and never more than the read
      buffer holds. */
  lemma {:induction false} FileIsLines(kvs: seq<string>)
    requires CStrings(kvs)
    ensures File([], kvs) == Join(LinesAfter(kvs)) && Plain(LinesAfter(kvs)) && |File([], kvs)| < KV_BUF
  {
    hide SetLines, LineKey, Join;
    if kvs == [] {
      EmptyJoins();
    } else {
      var before, kv := kvs[..|kvs| - 1], kvs[|kvs| - 1];
      FileIsLines(before);
      KeyOrInvalid(File([], before), kv);
      if LineKey(kv).Some? { SetIsLines(LinesAfter(before), kv); }
    }
  }

  lemma EmptyJoins()
    ensures Join([]) == []
  {
  }

  lemma KeyOrInvalid(file: string, kv: string)
    ensures KvSet(file, kv).Invalid? <==> LineKey(kv).None?
  {
  }

  /** Every accepted call fits the file it finds. */
  ghost predicate AllFit(kvs: seq<string>) {
    kvs == [] ||
    (var before, kv := kvs[..|kvs| - 1], kvs[|kvs| - 1];
     AllFit(before) && (Takes(LinesAfter(before), kv) ==> Fits(LinesAfter(before), kv)))
  }

  ghost predicate AlwaysOneLine(kvs: seq<string>) {
    if kvs == [] then OneLinePerKey([])
    else AlwaysOneLine(kvs[..|kvs| - 1]) && OneLinePerKey(LinesAfter(kvs))
  }

  lemma {:induction false} AlwaysMeansNow(kvs: seq<string>)
    requires AlwaysOneLine(kvs)
    ensures OneLinePerKey(LinesAfter(kvs))
  {
  }

  /** Every key stays on one line throughout a sequence of calls exactly when every accepted call fits. */
  lemma {:induction false} AlwaysOneLineExactlyIfAllFit(kvs: seq<string>)
    ensures AlwaysOneLine(kvs) <==> AllFit(kvs)
  {
    hide Takes, Fits, SetLines, OneLinePerKey;
    if kvs == [] {
      EmptyIsOneLine();
    } else {
      var before, kv := kvs[..|kvs| - 1], kvs[|kvs| - 1];
      AlwaysOneLineExactlyIfAllFit(before);
      if AlwaysOneLine(before) {
        AlwaysMeansNow(before);
        OneLineExactlyIfFits(LinesAfter(before), kv);
      }
    }
  }

  lemma EmptyIsOneLine()
    ensures OneLinePerKey([])
  {
  }

  /** Arguments without newlines always do. */
  lemma {:induction false} SingleLinesAllFit(kvs: seq<string>)
    requires forall i :: 0 <= i < |kvs| ==> '\n' !in kvs[i]
    ensures AllFit(kvs)
  {
    hide SetLines, Fits, LinesAfter, LineKey;
    if kvs != [] {
      var before, kv := kvs[..|kvs| - 1], kvs[|kvs| - 1];
      SingleLinesAllFit(before);
      if LineKey(kv).Some? { SingleLineFits(LinesAfter(before), kv); }
    }
  }

  // ----- the map it refines ---------------------------------------------

  /** What a reader of the file makes of it. */
  function ToMap(ls: seq<string>): map<string, string> {
    if ls == [] then map[]
    else
      var before, line := ToMap(ls[..|ls| - 1]), ls[|ls| - 1];
      if LineKey(line).Some? then before[LineKey(line).value := LineValue(line)] else before
  }

  lemma CountSnoc(ls: seq<string>, line: string, k: string)
    ensures Count(ls + [line], k) == Count(ls, k) + (if LineKey(line) == Some(k) then 1 else 0)
  {
    hide LineKey;
    CountConcat(ls, [line], k);
    assert [line][1..] == [];
  }

  lemma {:induction false} ToMapIs(ls: seq<string>)
    requires OneLinePerKey(ls)
    ensures forall k :: k in ToMap(ls) <==> Count(ls, k) > 0
    ensures forall i :: 0 <= i < |ls| && LineKey(ls[i]).Some? ==>
      LineKey(ls[i]).value in ToMap(ls) && ToMap(ls)[LineKey(ls[i]).value] == LineValue(ls[i])
  {
    hide LineKey, LineValue, Count;
    if ls == [] {
      forall k ensures Count(ls, k) == 0 { CountNone(k); }
    } else {
      var before, last := ls[..|ls| - 1], ls[|ls| - 1];
      assert ls == before + [last];
      forall k ensures Count(ls, k) == Count(before, k) + (if LineKey(last) == Some(k) then 1 else 0) {
        CountSnoc(before, last, k);
      }
      forall k ensures Count(before, k) <= 1 { assert Count(ls, k) <= 1; }
      ToMapIs(before);
      forall i | 0 <= i < |before| && LineKey(before[i]).Some? ensures LineKey(before[i]) != LineKey(last) {
        var k := LineKey(before[i]).value;
        CountHas(before, k);
        assert Count(ls, k) <= 1;
      }
    }
  }

  lemma CountNone(k: string)
    ensures Count([], k) == 0
  {
  }

  lemma {:induction false} NewLinesHave(ls: seq<string>, key: string, kv: string, line: string)
    requires LineKey(line).Some?
    requires (line in ls && LineKey(line) != Some(key)) || (line in Lines(kv) && HasLine(ls, key))
    ensures line in NewLines(ls, key, kv)
  {
    hide LineKey, Lines;
    if ls != [] {
      HasLineCons(ls, key);
      if !(line in PieceLines(ls[0], key, kv)) {
        EmptyHasNoKey();
        NewLinesHave(ls[1..], key, kv, line);
      }
    }
  }

  lemma EmptyHasNoKey()
    ensures LineKey("") == None
  {
  }

  /** Lines of other keys stay, and all lines of the argument are there. */
  lemma SetHas(ls: seq<string>, kv: string, line: string)
    requires LineKey(line).Some? && ((line in ls && LineKey(line) != Some(KeyOf(kv))) || line in Lines(kv))
    ensures line in SetLines(ls, kv)
  {
    hide LineKey, Lines, NewLines, KeyOf;
    var key := KeyOf(kv);
    if (line in ls && LineKey(line) != Some(key)) || HasLine(ls, key) { NewLinesHave(ls, key, kv, line); }
  }

  lemma ToMapFinds(ls: seq<string>, k: string) returns (line: string)
    requires OneLinePerKey(ls) && k in ToMap(ls)
    ensures line in ls && LineKey(line) == Some(k) && ToMap(ls)[k] == LineValue(line)
  {
    hide LineKey, LineValue, Count, ToMap;
    ToMapIs(ls);
    CountHas(ls, k);
    var i :| 0 <= i < |ls| && LineKey(ls[i]) == Some(k);
    line := ls[i];
  }

  lemma ToMapOf(ls: seq<string>, line: string)
    requires OneLinePerKey(ls) && line in ls && LineKey(line).Some?
    ensures LineKey(line).value in ToMap(ls) && ToMap(ls)[LineKey(line).value] == LineValue(line)
  {
    hide LineKey, LineValue, Count, ToMap;
    ToMapIs(ls);
  }

  /** Read as a map, a set that fits replaces its key by what its lines say, and leaves every other key as it was. */
  lemma SetIsUpdate(ls: seq<string>, kv: string)
    requires OneLinePerKey(ls) && Fits(ls, kv)
    ensures ToMap(SetLines(ls, kv)) == (ToMap(ls) - {KeyOf(kv)}) + ToMap(Lines(kv))
  {
    hide Count, SetLines, ToMap, Lines, KeyOf, LineKey, LineValue;
    var after, own := SetLines(ls, kv), Lines(kv);
    var m := (ToMap(ls) - {KeyOf(kv)}) + ToMap(own);
    OneLineExactlyIfFits(ls, kv);
    forall k ensures Count(own, k) <= 1 {
    }
    ToMapIs(ls);
    ToMapIs(own);
    ToMapIs(after);
    forall k ensures k in ToMap(after) <==> k in m { CountSet(ls, kv, k); }
    forall k | k in m ensures k in ToMap(after) && ToMap(after)[k] == m[k] {
      var line;
      if k in ToMap(own) { line := ToMapFinds(own, k); } else { line := ToMapFinds(ls, k); }
      SetHas(ls, kv, line);
      ToMapOf(after, line);
    }
  }

  /** In particular a setting of one line is a plain map update. */
  lemma SingleLineUpdates(ls: seq<string>, kv: string)
    requires OneLinePerKey(ls) && '\n' !in kv && LineKey(kv).Some?
    ensures ToMap(SetLines(ls, kv)) == ToMap(ls)[KeyOf(kv) := LineValue(kv)]
  {
    hide SetLines, Lines, Count, Fits, LineValue;
    SingleLineFits(ls, kv);
    SetIsUpdate(ls, kv);
    assert [kv][..0] == [];
    assert ToMap([kv]) == map[KeyOf(kv) := LineValue(kv)];
  }

  /** Last write wins over the calls that were accepted. */
  function Writes(kvs: seq<string>): map<string, string> {
    if kvs == [] then map[]
    else
      var before, kv := Writes(kvs[..|kvs| - 1]), kvs[|kvs| - 1];
      if Takes(LinesAfter(kvs[..|kvs| - 1]), kv) then (before - {KeyOf(kv)}) + ToMap(Lines(kv)) else before
  }

  /** The file after any sequence of calls that fit, read as a map, is the map of the last accepted write of each
      key. */
  lemma {:induction false} LastWriteWins(kvs: seq<string>)
    requires AllFit(kvs)
    ensures ToMap(LinesAfter(kvs)) == Writes(kvs)
  {
    hide Takes, Fits, SetLines, Lines;
    if kvs != [] {
      var before, kv := kvs[..|kvs| - 1], kvs[|kvs| - 1];
      LastWriteWins(before);
      AlwaysOneLineExactlyIfAllFit(before);
      AlwaysMeansNow(before);
      if Takes(LinesAfter(before), kv) { SetIsUpdate(LinesAfter(before), kv); }
    }
  }

  // ----- order, and setting the same thing again ------------------------

  function Filled(ls: seq<string>): seq<string> {
    if ls == [] then [] else (if ls[0] == [] then [] else [ls[0]]) + Filled(ls[1..])
  }

  lemma {:induction false} NewLinesConcat(a: seq<string>, b: seq<string>, key: string, kv: string)
    ensures NewLines(a + b, key, kv) == NewLines(a, key, kv) + NewLines(b, key, kv)
  {
    hide PieceLines;
    if a == [] {
      assert a + b == b;
    } else {
      NewLinesConcat(a[1..], b, key, kv);
      assert (a + b)[1..] == a[1..] + b;
    }
  }

  lemma {:induction false} NewLinesElsewhere(ls: seq<string>, key: string, kv: string)
    requires !HasLine(ls, key)
    ensures NewLines(ls, key, kv) == Filled(ls)
  {
    hide LineKey, Lines;
    if ls != [] {
      HasLineCons(ls, key);
      NewLinesElsewhere(ls[1..], key, kv);
    }
  }

  lemma NewLinesOne(line: string, key: string, kv: string)
    ensures NewLines([line], key, kv) == PieceLines(line, key, kv)
  {
    assert [line][1..] == [];
  }

  /** The argument takes the place of the line with its key, or comes last; the other lines keep their order, and empty
      ones go. */
  lemma SetKeepsOrder(a: seq<string>, line: string, b: seq<string>, kv: string)
    requires !HasLine(a, KeyOf(kv)) && !HasLine(b, KeyOf(kv))
    ensures SetLines(a + b, kv) == Filled(a) + Filled(b) + Lines(kv)
    ensures LineKey(line) == Some(KeyOf(kv)) ==> SetLines(a + [line] + b, kv) == Filled(a) + Lines(kv) + Filled(b)
  {
    hide LineKey, Lines, KeyOf, NewLines, Filled, Count;
    var key := KeyOf(kv);
    NewLinesElsewhere(a, key, kv);
    NewLinesElsewhere(b, key, kv);
    NewLinesConcat(a, b, key, kv);
    CountConcat(a, b, key);
    CountHas(a, key);
    CountHas(b, key);
    CountHas(a + b, key);
    if LineKey(line) == Some(key) {
      assert (a + [line] + b)[|a|] == line;
      NewLinesConcat(a + [line], b, key, kv);
      NewLinesConcat(a, [line], key, kv);
      NewLinesOne(line, key, kv);
    }
  }

  /** A key without a newline, and nothing after the first line but newlines. */
  predicate Settled(kv: string) {
    '\n' !in KeyOf(kv) && Filled(Lines(kv)[1..]) == []
  }

  lemma NotYet(s: string, c: char, i: nat)
    requires i < |s| && s[i] != c
    ensures IndexOf(s, c) > i || c in s[..i]
  {
    var j := IndexOf(s, c);
    if j < i { assert s[..i][j] == c; }
  }

  lemma LinesFirst(kv: string)
    ensures Lines(kv) != []
    ensures LineKey(kv).Some? && '\n' !in KeyOf(kv) ==> LineKey(Lines(kv)[0]) == Some(KeyOf(kv))
  {
    var eol, eq := IndexOf(kv, '\n'), IndexOf(kv, '=');
    if LineKey(kv).Some? && '\n' !in KeyOf(kv) {
      NotYet(kv, '\n', eq);
      var first := kv[..eol];
      assert first[..eq] == kv[..eq] && first[eq] == '=';
      IndexOfIs(first, '=', eq);
    }
  }

  lemma BlankGoes(ls: seq<string>, key: string, kv: string)
    ensures Filled(ls) == [] <==> NewLines(ls, key, kv) == []
  {
    hide LineKey, Lines;
    if ls != [] {
      EmptyHasNoKey();
      LinesFirst(kv);
      BlankGoes(ls[1..], key, kv);
    }
  }

  /** What a second set makes of the lines a first one wrote: those, and the rest of the argument again. */
  lemma SecondTime(kv: string)
    requires LineKey(kv).Some? && '\n' !in KeyOf(kv)
    ensures var key, own := KeyOf(kv), Lines(kv);
      && own != [] && NewLines(own, key, kv) == own + NewLines(own[1..], key, kv)
      && Count(own, key) > 0
      && (Settled(kv) <==> NewLines(own[1..], key, kv) == [])
  {
    hide LineKey, Lines;
    LinesFirst(kv);
    BlankGoes(Lines(kv)[1..], KeyOf(kv), kv);
  }

  /** The size of the file that holds these lines. */
  function Size(ls: seq<string>): nat { |Join(ls)| }

  lemma SizeConcat(a: seq<string>, b: seq<string>)
    ensures Size(a + b) == Size(a) + Size(b) && (b != [] ==> Size(b) > 0)
  {
    JoinConcat(a, b);
  }

  lemma PieceTwice(line: string, kv: string)
    requires '\n' !in line && LineKey(kv).Some?
    ensures var key := KeyOf(kv);
      var piece := PieceLines(line, key, kv);
      && (LineKey(line) != Some(key) || Settled(kv) ==> NewLines(piece, key, kv) == piece)
      && (LineKey(line) == Some(key) && !Settled(kv) ==> Size(NewLines(piece, key, kv)) > Size(piece))
  {
    hide LineKey, Lines, Settled, Size, NewLines;
    var key := KeyOf(kv);
    if LineKey(line) == Some(key) {
      KeyIsPlain(line);
      SecondTime(kv);
      SizeConcat(Lines(kv), NewLines(Lines(kv)[1..], key, kv));
    } else if line != [] {
      NewLinesOne(line, key, kv);
    } else {
      NewLinesNone(key, kv);
    }
  }

  lemma NewLinesNone(key: string, kv: string)
    ensures NewLines([], key, kv) == []
  {
  }

  lemma {:induction false} NewLinesTwice(ls: seq<string>, kv: string)
    requires Plain(ls) && LineKey(kv).Some?
    ensures var key, once := KeyOf(kv), NewLines(ls, KeyOf(kv), kv);
      && (!HasLine(ls, key) || Settled(kv) ==> NewLines(once, key, kv) == once)
      && (HasLine(ls, key) && !Settled(kv) ==> Size(NewLines(once, key, kv)) > Size(once))
  {
    hide LineKey, Lines, Settled, HasLine, Size, Plain, PieceLines, KeyOf, NewLines;
    var key := KeyOf(kv);
    if ls == [] {
      NoLine(key);
      NewLinesNone(key, kv);
    } else {
      var piece, rest := PieceLines(ls[0], key, kv), NewLines(ls[1..], key, kv);
      NewLinesCons(ls, key, kv);
      HasLineCons(ls, key);
      PlainTail(ls);
      PieceTwice(ls[0], kv);
      NewLinesTwice(ls[1..], kv);
      NewLinesConcat(piece, rest, key, kv);
      SizeConcat(piece, rest);
      SizeConcat(NewLines(piece, key, kv), NewLines(rest, key, kv));
    }
  }

  lemma NewLinesCons(ls: seq<string>, key: string, kv: string)
    requires ls != []
    ensures NewLines(ls, key, kv) == PieceLines(ls[0], key, kv) + NewLines(ls[1..], key, kv)
  {
  }

  lemma PlainConcat(a: seq<string>, b: seq<string>)
    requires Plain(a) && Plain(b)
    ensures Plain(a + b)
  {
  }

  lemma PlainTail(ls: seq<string>)
    requires Plain(ls) && ls != []
    ensures Plain(ls[1..]) && '\n' !in ls[0]
  {
  }

  lemma KeyIsPlain(line: string)
    requires '\n' !in line && LineKey(line).Some?
    ensures '\n' !in LineKey(line).value
  {
  }

  /** Setting the same thing again changes nothing exactly when the argument is one line, and perhaps newlines after
      it. */
  lemma SetTwiceExactly(ls: seq<string>, kv: string)
    requires Plain(ls) && |Join(ls)| < KV_BUF && LineKey(kv).Some? && NUL !in kv && KvSet(Join(ls), kv).Written?
    ensures KvSet(KvSet(Join(ls), kv).text, kv) == KvSet(Join(ls), kv) <==> Settled(kv)
  {
    hide Plain, Join, LineKey, KvSet, SetLines, Settled;
    var once := SetLines(ls, kv);
    SetIsLines(ls, kv);
    SetIsLines(once, kv);
    SecondSet(ls, kv);
    assert |Join(once)| == Size(once) && |Join(SetLines(once, kv))| == Size(SetLines(once, kv));
  }

  lemma SecondSet(ls: seq<string>, kv: string)
    requires Plain(ls) && LineKey(kv).Some? && NUL !in kv
    ensures var once := SetLines(ls, kv);
      && (Settled(kv) ==> SetLines(once, kv) == once)
      && (!Settled(kv) ==> Size(SetLines(once, kv)) > Size(once))
  {
    hide Plain, LineKey, Lines, NewLines, Size, HasLine, Count;
    var key, own := KeyOf(kv), Lines(kv);
    var first, once := NewLines(ls, key, kv), SetLines(ls, kv);
    NewLinesTwice(ls, kv);
    NewLinesPlain(ls, key, kv);
    LinesPlain(kv);
    PlainConcat(first, own);
    NewLinesConcat(first, own, key, kv);
    SizeConcat(first, own);
    SizeConcat(NewLines(first, key, kv), NewLines(own, key, kv));
    CountHas(once, key);
    CountConcat(first, own, key);
    if '\n' in key {
      NoLineOfKey(ls, key);
      NoLineOfKey(once, key);
      OwnIsFilled(kv);
      SizeConcat(NewLines(once, key, kv), own);
      SizeConcat([], NewLines(own, key, kv));
    } else {
      SecondTime(kv);
      SizeConcat(own, NewLines(own[1..], key, kv));
      if HasLine(ls, key) { StillThere(ls, kv); }
    }
  }

  lemma StillThere(ls: seq<string>, kv: string)
    requires LineKey(kv).Some? && '\n' !in KeyOf(kv) && HasLine(ls, KeyOf(kv))
    ensures Count(NewLines(ls, KeyOf(kv), kv), KeyOf(kv)) > 0
  {
    hide LineKey, Lines, NewLines;
    var key := KeyOf(kv);
    LinesFirst(kv);
    var line := Lines(kv)[0];
    NewLinesHave(ls, key, kv, line);
    var n := NewLines(ls, key, kv);
    var i :| 0 <= i < |n| && n[i] == line;
    CountHas(n, key);
  }

  lemma NoLineOfKey(ls: seq<string>, key: string)
    requires Plain(ls) && '\n' in key
    ensures !HasLine(ls, key)
  {
  }

  /** An argument with an equals sign has a line that is not empty. */
  lemma OwnIsFilled(kv: string)
    requires LineKey(kv).Some?
    ensures NewLines(Lines(kv), KeyOf(kv), kv) != []
  {
    hide Lines, NewLines, IndexOf;
    LinesFilled(kv);
    BlankGoes(Lines(kv), KeyOf(kv), kv);
  }

  lemma {:induction false} LinesFilled(t: string)
    requires '=' in t
    ensures Filled(Lines(t)) != []
    decreases |t|
  {
    hide IndexOf;
    var eol := IndexOf(t, '\n');
    if eol == 0 {
      assert t == [t[0]] + t[1..];
      LinesFilled(t[1..]);
    } else {
      assert Lines(t)[0] != [];
    }
  }
}
