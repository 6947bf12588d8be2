/** Which header line decides a field, when the last of several does. */
module LineRules {

  /** What makes a line count for a field: that it begins with the word; that its value is also short enough; or that it
      is short enough or led by a space. */
  datatype Test = Begins(word: string) | Short(word: string, limit: nat) | ShortOrSpaced(word: string, limit: nat)

  predicate Passes(line: string, t: Test) {
    t.word <= line &&
    match t
    case Begins(_) => true
    case Short(w, limit) => |line| - |w| < limit
    case ShortOrSpaced(w, limit) => |line| - |w| < limit || (|line| > |w| && line[|w|] == ' ')
  }

  /** Line k is the last that passes. */
  predicate LastAt(lines: seq<string>, t: Test, k: nat) {
    k < |lines| && Passes(lines[k], t) && forall j :: k < j < |lines| ==> !Passes(lines[j], t)
  }

  predicate NonePasses(lines: seq<string>, t: Test) { forall j :: 0 <= j < |lines| ==> !Passes(lines[j], t) }

  lemma LastSnoc(lines: seq<string>, last: string, t: Test)
    ensures Passes(last, t) ==> LastAt(lines + [last], t, |lines|) && !NonePasses(lines + [last], t)
    ensures !Passes(last, t) ==>
      && (NonePasses(lines + [last], t) <==> NonePasses(lines, t))
      && forall k: nat :: LastAt(lines + [last], t, k) <==> LastAt(lines, t, k)
  {
    hide Passes;
    var all := lines + [last];
    assert all[|lines|] == last && forall j :: 0 <= j < |lines| ==> all[j] == lines[j];
  }

  lemma LastIsOne(lines: seq<string>, t: Test, j: nat, k: nat)
    requires LastAt(lines, t, j) && LastAt(lines, t, k)
    ensures j == k
  {
  }

  /** At most one of the words begins a line. */
  lemma WordsDiffer(line: string)
    ensures "VERB " <= line ==> !("LEN " <= line) && !("REPLY-TO " <= line) && !("TASK-ID " <= line)
    ensures "LEN " <= line ==> !("REPLY-TO " <= line) && !("TASK-ID " <= line)
    ensures "REPLY-TO " <= line ==> !("TASK-ID " <= line)
  {
    assert "VERB " <= line ==> line[0] == 'V';
    assert "LEN " <= line ==> line[0] == 'L';
    assert "REPLY-TO " <= line ==> line[0] == 'R';
    assert "TASK-ID " <= line ==> line[0] == 'T';
  }
}
