/** Fanout delegation: the pending directory of tasks.c and the two handlers of fanout-agent.c. */
module Fanout {
  import opened AgentNames
  import opened Text

  datatype TaskState = Delegated | Completed | Failed

  predicate ValidId(id: string) {
    0 < |id| < MAX_TASK_ID && id[0] != '.' && forall i :: 0 <= i < |id| ==> NameChar(id[i])
  }

  /** The pending entry of one delegation. */
  function FileName(id: string, name: string): string { id + "." + name }

  /** The names pending_count_for_task counts. */
  predicate Counted(f: string, id: string) { id + "." <= f }

  function Matching(files: set<string>, id: string): set<string> { set f | f in files && Counted(f, id) }

  /** The pending directory and the states of all tasks; and, for each of them, whom it was delegated to and who has
      sent a result for it since. */
  datatype World = World(files: set<string>, tasks: map<string, TaskState>,
                         accepted: map<string, set<string>>, replied: map<string, set<string>>)

  const EMPTY := World({}, map[], map[], map[])

  // ----- handlers -------------------------------------------------------

  /** The targets whose send succeeded. */
  function Accepting(targets: seq<string>, oks: seq<bool>): set<string>
    requires |targets| == |oks|
  {
    if targets == [] then {} else (if oks[0] then {targets[0]} else {}) + Accepting(targets[1..], oks[1..])
  }

  function Entries(id: string, names: set<string>): set<string> { set n | n in names :: FileName(id, n) }

  /** A new task: failed if it has no target or none accepted, delegated otherwise. */
  function Delegate(w: World, id: string, targets: seq<string>, oks: seq<bool>): World
    requires |targets| == |oks|
  {
    var a := Accepting(targets, oks);
    World(w.files + Entries(id, a), w.tasks[id := if a == {} then Failed else Delegated],
          w.accepted[id := a], w.replied[id := {}])
  }

  function Removed(files: set<string>, id: string, sender: string): set<string> {
    if ValidId(id) && ValidName(sender) then files - {FileName(id, sender)} else files
  }

  /** A result message. A count of zero completes a task of that name, if there is one. */
  function OnResult(w: World, id: string, sender: string): World {
    if id == [] then w
    else
      var files := Removed(w.files, id, sender);
      var done := ValidId(id) && Matching(files, id) == {};
      World(files,
            if done && id in w.tasks then w.tasks[id := Completed] else w.tasks,
            w.accepted,
            if id in w.replied then w.replied[id := w.replied[id] + {sender}] else w.replied)
  }

  datatype Step = Incoming(id: string, targets: seq<string>, oks: seq<bool>) | Result(id: string, sender: string)

  /** New ids are new and have no dot, as task_alloc_id makes them; a send that succeeds was to a valid name. */
  predicate Legal(w: World, e: Step) {
    match e
    case Incoming(id, targets, oks) =>
      && id !in w.tasks && ValidId(id) && '.' !in id && |targets| == |oks|
      && forall i :: 0 <= i < |targets| && oks[i] ==> ValidName(targets[i])
    case Result(_, _) => true
  }

  function Next(w: World, e: Step): World
    requires Legal(w, e)
  {
    match e
    case Incoming(id, targets, oks) => Delegate(w, id, targets, oks)
    case Result(id, sender) => OnResult(w, id, sender)
  }

  ghost predicate Feasible(w: World, es: seq<Step>)
    decreases |es|
  {
    es == [] || (Legal(w, es[0]) && Feasible(Next(w, es[0]), es[1..]))
  }

  ghost function Run(w: World, es: seq<Step>): World
    requires Feasible(w, es)
    decreases |es|
  {
    if es == [] then w else Run(Next(w, es[0]), es[1..])
  }

  // ----- file names -----------------------------------------------------

  /** With a dot-free id, an entry is counted exactly for its own task. */
  lemma CountedIs(id: string, name: string, other: string)
    requires '.' !in id && '.' !in other
    ensures Counted(FileName(id, name), other) <==> id == other
  {
    var f := FileName(id, name);
    assert f[..|id|] == id;
    IndexOfIs(f, '.', |id|);
    if Counted(f, other) {
      assert f[..|other|] == other;
      IndexOfIs(f, '.', |other|);
    }
  }

  /** When two delegations share a file name: they are the same, or the second id goes on into the name. */
  lemma FileNamesCollide(id: string, name: string, other: string, sender: string)
    requires '.' !in id
    ensures FileName(other, sender) == FileName(id, name) <==>
      (other == id && sender == name) || (id + "." <= other && name == other[|id| + 1..] + "." + sender)
  {
    var f := FileName(id, name);
    assert f[..|id|] == id && f[|id| + 1..] == name;
    IndexOfIs(f, '.', |id|);
    if FileName(other, sender) == f {
      if |other| == |id| {
        assert f[..|other|] == other && f[|other| + 1..] == sender;
      } else {
        DotBefore(f, id, other, sender);
        assert f[|id| + 1..] == other[|id| + 1..] + "." + sender;
      }
    }
    if id + "." <= other && name == other[|id| + 1..] + "." + sender {
      assert other == id + "." + other[|id| + 1..];
    }
  }

  lemma DotBefore(f: string, id: string, other: string, sender: string)
    requires '.' !in id && f == other + "." + sender && IndexOf(f, '.') == |id| && f[..|id|] == id && |other| != |id|
    ensures id + "." <= other
  {
    assert f[|other|] == '.';
    assert forall k :: 0 <= k < |id| ==> f[k] == id[k] && id[k] in id;
    assert |id| < |other|;
    assert other[..|id|] == f[..|id|] && other[|id|] == f[|id|];
  }

  // ----- the invariant --------------------------------------------------

  /** Replies still to come. */
  function Outstanding(w: World, id: string): set<string> {
    if id in w.accepted && id in w.replied then w.accepted[id] - w.replied[id] else {}
  }

  ghost predicate FilesOk(w: World) {
    forall f :: f in w.files <==> exists id, n :: id in w.tasks && n in Outstanding(w, id) && f == FileName(id, n)
  }

  function Expected(accepted: set<string>, replied: set<string>): TaskState {
    if replied != {} && accepted <= replied then Completed else if accepted == {} then Failed else Delegated
  }

  ghost predicate Inv(w: World) {
    && w.accepted.Keys == w.tasks.Keys && w.replied.Keys == w.tasks.Keys
    && (forall id :: id in w.tasks ==>
      ValidId(id) && '.' !in id && w.tasks[id] == Expected(w.accepted[id], w.replied[id]))
    && (forall id, n :: id in w.tasks && n in w.accepted[id] ==> ValidName(n))
    && FilesOk(w)
  }

  /** The file-name prefix count of a dot-free id is the number of replies still to come. */
  lemma CountIsOutstanding(w: World, id: string)
    requires Inv(w) && '.' !in id
    ensures Matching(w.files, id) == Entries(id, Outstanding(w, id)) && |Matching(w.files, id)| == |Outstanding(w, id)|
  {
    forall f ensures f in Matching(w.files, id) <==> f in Entries(id, Outstanding(w, id)) {
      if f in Matching(w.files, id) {
        var i, n :| i in w.tasks && n in Outstanding(w, i) && f == FileName(i, n);
        CountedIs(i, n, id);
      }
      if f in Entries(id, Outstanding(w, id)) {
        var n :| n in Outstanding(w, id) && f == FileName(id, n);
        CountedIs(id, n, id);
      }
    }
    EntriesSize(id, Outstanding(w, id));
  }

  lemma {:induction false} EntriesSize(id: string, names: set<string>)
    ensures |Entries(id, names)| == |names|
  {
    if names == {} {
      assert Entries(id, names) == {};
    } else {
      var n :| n in names;
      EntriesSize(id, names - {n});
      forall m | m in names && m != n ensures FileName(id, m) != FileName(id, n) {
        assert FileName(id, m)[|id| + 1..] == m && FileName(id, n)[|id| + 1..] == n;
      }
      assert Entries(id, names) == Entries(id, names - {n}) + {FileName(id, n)};
    }
  }

  // ----- every step keeps it --------------------------------------------

  lemma {:induction false} AcceptingValid(targets: seq<string>, oks: seq<bool>)
    requires |targets| == |oks| && forall i :: 0 <= i < |targets| && oks[i] ==> ValidName(targets[i])
    ensures forall n :: n in Accepting(targets, oks) ==> ValidName(n)
    ensures forall n :: n in Accepting(targets, oks) <==> exists i :: 0 <= i < |targets| && oks[i] && targets[i] == n
  {
    if targets != [] {
      var tt, oo := targets[1..], oks[1..];
      AcceptingValid(tt, oo);
      forall n | n in Accepting(targets, oks) ensures exists i :: 0 <= i < |targets| && oks[i] && targets[i] == n {
        if n in Accepting(tt, oo) {
          var i :| 0 <= i < |tt| && oo[i] && tt[i] == n;
          assert oks[i + 1] && targets[i + 1] == n;
        } else {
          assert oks[0] && targets[0] == n;
        }
      }
      forall i | 0 <= i < |targets| && oks[i] ensures targets[i] in Accepting(targets, oks) {
        if i > 0 { assert oo[i - 1] && tt[i - 1] == targets[i]; }
      }
    }
  }

  lemma DelegateKeeps(w: World, id: string, targets: seq<string>, oks: seq<bool>)
    requires Inv(w) && Legal(w, Incoming(id, targets, oks))
    ensures Inv(Delegate(w, id, targets, oks))
  {
    hide ValidId, ValidName, Accepting, FileName, FilesOk, Entries;
    var a, w' := Accepting(targets, oks), Delegate(w, id, targets, oks);
    AcceptingValid(targets, oks);
    DelegateFiles(w, w', id, a);
  }

  lemma DelegateFiles(w: World, w': World, id: string, a: set<string>)
    requires FilesOk(w) && id !in w.tasks && w'.files == w.files + Entries(id, a)
    requires w'.tasks.Keys == w.tasks.Keys + {id} && w'.accepted == w.accepted[id := a]
    requires w'.replied == w.replied[id := {}]
    ensures FilesOk(w')
  {
    hide FileName;
    assert Outstanding(w', id) == a;
    assert forall i :: i in w.tasks ==> Outstanding(w', i) == Outstanding(w, i);
    forall f | f in w'.files ensures exists i, n :: i in w'.tasks && n in Outstanding(w', i) && f == FileName(i, n) {
      if f in Entries(id, a) {
        var n :| n in a && f == FileName(id, n);
        assert id in w'.tasks && n in Outstanding(w', id);
      } else {
        var i, n :| i in w.tasks && n in Outstanding(w, i) && f == FileName(i, n);
        assert i in w'.tasks && n in Outstanding(w', i);
      }
    }
    forall i, n | i in w'.tasks && n in Outstanding(w', i) ensures FileName(i, n) in w'.files {
      if i != id { assert i in w.tasks && n in Outstanding(w, i); }
    }
  }

  /** The result names the pending file of another task's delegation. */
  ghost predicate CollidesWith(w: World, id: string, sender: string, i: string, n: string) {
    i in w.tasks && n in Outstanding(w, i) && i != id && FileName(i, n) == FileName(id, sender)
  }

  ghost predicate Collides(w: World, id: string, sender: string) {
    ValidId(id) && ValidName(sender) && exists i, n :: CollidesWith(w, id, sender, i, n)
  }

  /** An id without a dot names only its own entries. */
  lemma DotFreeIdNeverCollides(w: World, id: string, sender: string)
    requires Inv(w) && '.' !in id
    ensures !Collides(w, id, sender)
  {
    hide ValidId, ValidName;
    forall i, n | i in w.tasks && n in Outstanding(w, i) && i != id ensures !CollidesWith(w, id, sender, i, n) {
      FileNamesCollide(i, n, id, sender);
      DotInside(i, id);
    }
  }

  /** Names without a dot, which a policy author can see to, exclude collisions. */
  lemma DotFreeNamesNeverCollide(w: World, id: string, sender: string)
    requires Inv(w) && forall i, n :: i in w.tasks && n in w.accepted[i] ==> '.' !in n
    ensures !Collides(w, id, sender)
  {
    hide ValidId, ValidName;
    forall i, n | i in w.tasks && n in Outstanding(w, i) && i != id ensures !CollidesWith(w, id, sender, i, n) {
      FileNamesCollide(i, n, id, sender);
      if id == i { } else if i + "." <= id { assert '.' in id[|i| + 1..] + "." + sender; }
    }
  }

  /** A result that does not collide takes at most its own task's entry for its sender off the directory. */
  lemma ResultOutstanding(w: World, id: string, sender: string)
    requires Inv(w) && id in w.tasks
    ensures var w' := OnResult(w, id, sender);
      && w'.tasks.Keys == w.tasks.Keys && w'.files == Removed(w.files, id, sender)
      && (forall i :: i in w.tasks && i != id ==> Outstanding(w', i) == Outstanding(w, i))
      && Outstanding(w', id) == Outstanding(w, id) - {sender} && ValidId(id)
      && (forall n :: n in Outstanding(w, id) ==> ValidName(n))
  {
    hide ValidName, Matching, Removed;
  }

  lemma ResultFiles(w: World, id: string, sender: string)
    requires Inv(w) && id in w.tasks
    ensures FilesOk(OnResult(w, id, sender))
  {
    hide ValidName, Matching, OnResult, Outstanding;
    var w' := OnResult(w, id, sender);
    ResultOutstanding(w, id, sender);
    forall f ensures f in w'.files <==> exists i, n :: i in w'.tasks && n in Outstanding(w', i) && f == FileName(i, n) {
      if f in w'.files {
        var i, n :| i in w.tasks && n in Outstanding(w, i) && f == FileName(i, n);
        assert i in w'.tasks && n in Outstanding(w', i);
      }
      if i, n :| i in w'.tasks && n in Outstanding(w', i) && f == FileName(i, n) {
        assert i in w.tasks && n in Outstanding(w, i);
        FileNamesCollide(i, n, id, sender);
        DotInside(i, id);
      }
    }
  }

  /** A result for no task of this agent that does not collide changes nothing at all. */
  lemma StrayChangesNothing(w: World, id: string, sender: string)
    requires Inv(w) && id !in w.tasks && !Collides(w, id, sender)
    ensures OnResult(w, id, sender) == w
  {
    hide Matching, ValidId, ValidName, FileName, CollidesWith;
    if FileName(id, sender) in w.files { StrayFileCollides(w, id, sender); }
  }

  lemma StrayFileCollides(w: World, id: string, sender: string)
    requires Inv(w) && id !in w.tasks && FileName(id, sender) in w.files
    ensures exists i, n :: CollidesWith(w, id, sender, i, n)
  {
    var i, n :| i in w.tasks && n in Outstanding(w, i) && FileName(id, sender) == FileName(i, n);
    assert CollidesWith(w, id, sender, i, n);
  }

  lemma DotInside(id: string, other: string)
    ensures id + "." <= other ==> '.' in other
  {
    if id + "." <= other { assert other[|id|] == '.'; }
  }

  lemma ResultKeeps(w: World, id: string, sender: string)
    requires Inv(w) && !Collides(w, id, sender)
    ensures Inv(OnResult(w, id, sender))
  {
    hide ValidId, ValidName, FilesOk, Matching, Removed, Collides;
    if id !in w.tasks {
      StrayChangesNothing(w, id, sender);
    } else if id != [] {
      ResultFiles(w, id, sender);
      RemainingIs(w, id, sender);
    }
  }

  /** The count after a result is zero exactly when every accepted target has replied. */
  lemma RemainingIs(w: World, id: string, sender: string)
    requires Inv(w) && '.' !in id && id in w.tasks
    ensures Matching(Removed(w.files, id, sender), id) == {} <==> w.accepted[id] <= w.replied[id] + {sender}
  {
    hide ValidId, ValidName, Matching, FileName;
    CountIsOutstanding(w, id);
    MatchingRemoved(w, id, sender);
    var out := Outstanding(w, id);
    if w.accepted[id] <= w.replied[id] + {sender} {
      assert out <= {sender};
    } else {
      var n :| n in w.accepted[id] && n !in w.replied[id] + {sender};
      assert n in out - {sender};
    }
  }

  lemma MatchingRemoved(w: World, id: string, sender: string)
    requires Inv(w) && '.' !in id && id in w.tasks
    ensures Matching(Removed(w.files, id, sender), id) == {} <==> Outstanding(w, id) - {sender} == {}
  {
    CountIsOutstanding(w, id);
    var left := Matching(Removed(w.files, id, sender), id);
    var out := Outstanding(w, id);
    forall n | n in out && n != sender ensures FileName(id, n) in left {
      assert FileName(id, n) in Matching(w.files, id);
      assert FileName(id, n)[|id| + 1..] == n && FileName(id, sender)[|id| + 1..] == sender;
    }
    forall f | f in left ensures exists n :: n in out && n != sender && f == FileName(id, n) {
      assert f in Matching(w.files, id);
      var n :| n in out && f == FileName(id, n);
      assert ValidId(id) && ValidName(n);
    }
    if n :| n in out - {sender} { assert FileName(id, n) in left; }
    if f :| f in left { var n :| n in out && n != sender && f == FileName(id, n); assert n in out - {sender}; }
  }

  // ----- exactly the runs without a collision ---------------------------

  /** Every task's prefix count is the number of replies still to come. */
  ghost predicate Accurate(w: World) {
    forall i :: i in w.tasks ==> |Matching(w.files, i)| == |Outstanding(w, i)|
  }

  lemma InvIsAccurate(w: World)
    requires Inv(w)
    ensures Accurate(w)
  {
    hide Matching, FilesOk;
    forall i | i in w.tasks ensures |Matching(w.files, i)| == |Outstanding(w, i)| { CountIsOutstanding(w, i); }
  }

  /** A collision takes an entry of the other task away without a reply of that task's target. */
  lemma CollisionLosesEntry(w: World, id: string, sender: string, i: string, n: string)
    requires Inv(w) && ValidId(id) && ValidName(sender) && CollidesWith(w, id, sender, i, n)
    ensures var w' := OnResult(w, id, sender);
      && w' == w.(files := w.files - {FileName(i, n)}) && id !in w.tasks
      && Outstanding(w', i) == Outstanding(w, i) && Matching(w'.files, i) == Matching(w.files, i) - {FileName(i, n)}
      && FileName(i, n) in Matching(w.files, i)
  {
    FileNamesCollide(i, n, id, sender);
    DotInside(i, id);
    CountIsOutstanding(w, i);
    assert '.' in id;
    assert id != [];
    CountedIs(i, n, i);
  }

  /** From a consistent state, a result leaves the counts right exactly when it does not collide. */
  lemma AccurateExactlyIfNoCollision(w: World, id: string, sender: string)
    requires Inv(w)
    ensures Accurate(OnResult(w, id, sender)) <==> !Collides(w, id, sender)
    ensures Inv(OnResult(w, id, sender)) <==> !Collides(w, id, sender)
  {
    hide Inv, ValidId, ValidName, Matching, OnResult, CollidesWith;
    var w' := OnResult(w, id, sender);
    if Collides(w, id, sender) {
      var i, n :| CollidesWith(w, id, sender, i, n);
      CollisionMiscounts(w, id, sender, i, n);
      if Inv(w') { InvIsAccurate(w'); }
    } else {
      ResultKeeps(w, id, sender);
      InvIsAccurate(w');
    }
  }

  lemma CollisionMiscounts(w: World, id: string, sender: string, i: string, n: string)
    requires Inv(w) && ValidId(id) && ValidName(sender) && CollidesWith(w, id, sender, i, n)
    ensures !Accurate(OnResult(w, id, sender))
  {
    hide Matching, FilesOk, ValidId, ValidName, OnResult;
    var w' := OnResult(w, id, sender);
    CollisionLosesEntry(w, id, sender, i, n);
    CountIsOutstanding(w, i);
    assert i in w'.tasks && |Matching(w'.files, i)| == |Outstanding(w', i)| - 1;
  }

  /** So when n is the last that task i waits for, any further result for i completes it without n's reply. */
  lemma CollisionCompletesEarly(w: World, id: string, sender: string, i: string, n: string, any: string)
    requires Inv(w) && ValidId(id) && ValidName(sender) && CollidesWith(w, id, sender, i, n)
    requires Outstanding(w, i) == {n} && any != n
    ensures var w' := OnResult(OnResult(w, id, sender), i, any);
      i in w'.tasks && w'.tasks[i] == Completed && n in w'.accepted[i] && n !in w'.replied[i]
  {
    CollisionLosesEntry(w, id, sender, i, n);
    CountIsOutstanding(w, i);
    var w1 := OnResult(w, id, sender);
    assert Entries(i, {n}) == {FileName(i, n)};
    assert Matching(w1.files, i) == {};
    assert Matching(Removed(w1.files, i, any), i) == {};
  }

  /** No result of the run collides with a delegation that is outstanding when it arrives. */
  ghost predicate NoCollision(w: World, es: seq<Step>)
    requires Feasible(w, es)
    decreases |es|
  {
    es == [] || ((es[0].Result? ==> !Collides(w, es[0].id, es[0].sender)) && NoCollision(Next(w, es[0]), es[1..]))
  }

  /** The counts are right after every step of the run. */
  ghost predicate AlwaysAccurate(w: World, es: seq<Step>)
    requires Feasible(w, es)
    decreases |es|
  {
    Accurate(w) && (es == [] || AlwaysAccurate(Next(w, es[0]), es[1..]))
  }

  lemma {:induction false} RunKeeps(w: World, es: seq<Step>)
    requires Inv(w) && Feasible(w, es) && NoCollision(w, es)
    ensures Inv(Run(w, es))
    decreases |es|
  {
    hide Inv, Delegate, OnResult, Collides;
    if es != [] {
      match es[0] {
        case Incoming(id, targets, oks) => DelegateKeeps(w, id, targets, oks);
        case Result(id, sender) => ResultKeeps(w, id, sender);
      }
      RunKeeps(Next(w, es[0]), es[1..]);
    }
  }

  /** Along a run the counts stay right if and only if no result collides. */
  lemma {:induction false} AlwaysAccurateExactlyIfNoCollision(w: World, es: seq<Step>)
    requires Inv(w) && Feasible(w, es)
    ensures AlwaysAccurate(w, es) <==> NoCollision(w, es)
    decreases |es|
  {
    hide Inv, Delegate, OnResult, Collides, Accurate;
    InvIsAccurate(w);
    if es != [] {
      var w' := Next(w, es[0]);
      match es[0] {
        case Incoming(id, targets, oks) =>
          DelegateKeeps(w, id, targets, oks);
          AlwaysAccurateExactlyIfNoCollision(w', es[1..]);
        case Result(id, sender) =>
          AccurateExactlyIfNoCollision(w, id, sender);
          if !Collides(w, id, sender) { AlwaysAccurateExactlyIfNoCollision(w', es[1..]); }
          else { AlwaysAccurateNow(w', es[1..]); }
      }
    }
  }

  lemma AlwaysAccurateNow(w: World, es: seq<Step>)
    requires Feasible(w, es)
    ensures AlwaysAccurate(w, es) ==> Accurate(w)
  {
  }

  /** Two ways to rule collisions out: results carry ids without a dot, or no accepted name has one. */
  ghost predicate DotFreeIds(es: seq<Step>) { forall i :: 0 <= i < |es| && es[i].Result? ==> '.' !in es[i].id }

  ghost predicate DotFreeTargets(es: seq<Step>) {
    forall i, k :: 0 <= i < |es| && es[i].Incoming? && 0 <= k < |es[i].targets| ==> '.' !in es[i].targets[k]
  }

  ghost predicate DotFreeAccepted(w: World) { forall i, n :: i in w.accepted && n in w.accepted[i] ==> '.' !in n }

  lemma {:induction false} DotFreeRunHasNoCollision(w: World, es: seq<Step>)
    requires Inv(w) && Feasible(w, es) && (DotFreeIds(es) || (DotFreeAccepted(w) && DotFreeTargets(es)))
    ensures NoCollision(w, es)
    decreases |es|
  {
    if es != [] {
      hide Inv, OnResult, Collides;
      InvKeys(w);
      match es[0] {
        case Incoming(id, targets, oks) =>
          DelegateKeeps(w, id, targets, oks);
          AcceptingValid(targets, oks);
        case Result(id, sender) =>
          if DotFreeIds(es) { DotFreeIdNeverCollides(w, id, sender); } else { DotFreeNamesNeverCollide(w, id, sender); }
          ResultKeeps(w, id, sender);
          ResultAccepted(w, id, sender);
      }
      DotFreeRunHasNoCollision(Next(w, es[0]), es[1..]);
    }
  }

  lemma InvKeys(w: World)
    requires Inv(w)
    ensures w.accepted.Keys == w.tasks.Keys
  {
  }

  lemma ResultAccepted(w: World, id: string, sender: string)
    ensures OnResult(w, id, sender).accepted == w.accepted
  {
  }

  /** In every run without a collision, a task that was delegated to somebody is completed exactly when all of
      them have replied, and its prefix count is the number of those that have not, whatever the order, the
      duplicates and the strays. */
  lemma CompletedExactlyWhenAllReplied(es: seq<Step>, id: string)
    requires Feasible(EMPTY, es) && NoCollision(EMPTY, es) && id in Run(EMPTY, es).tasks
    ensures var w := Run(EMPTY, es);
      && id in w.accepted && id in w.replied
      && (w.accepted[id] != {} ==> (w.tasks[id] == Completed <==> w.accepted[id] <= w.replied[id]))
      && |Matching(w.files, id)| == |w.accepted[id] - w.replied[id]|
  {
    EmptyInv();
    RunKeeps(EMPTY, es);
    CountIsOutstanding(Run(EMPTY, es), id);
  }

  lemma EmptyInv()
    ensures Inv(EMPTY)
  {
  }

  /** The step that completes a delegated task is the first reply of the last accepted target. */
  lemma LastFirstReplyCompletes(w: World, id: string, e: Step)
    requires Inv(w) && Legal(w, e) && id in w.tasks && w.tasks[id] == Delegated
    ensures id in Next(w, e).tasks
    ensures Next(w, e).tasks[id] == Completed <==>
      e.Result? && e.id == id && w.accepted[id] - w.replied[id] == {e.sender}
  {
    hide FilesOk, ValidName, Matching, Removed, Delegate;
    if e.Result? && e.id == id {
      RemainingIs(w, id, e.sender);
      var out := w.accepted[id] - w.replied[id];
      assert w.accepted[id] <= w.replied[id] + {e.sender} <==> out <= {e.sender};
      DelegatedWaits(w.accepted[id], w.replied[id]);
      assert out <= {e.sender} ==> out == {e.sender} by {
        var n :| n in w.accepted[id] && n !in w.replied[id];
        assert n in out;
      }
    } else {
      OtherTasksStay(w, id, e);
    }
  }

  lemma DelegatedWaits(accepted: set<string>, replied: set<string>)
    requires Expected(accepted, replied) == Delegated
    ensures exists n :: n in accepted && n !in replied
  {
    if replied == {} {
      var n :| n in accepted;
    }
  }

  lemma OtherTasksStay(w: World, id: string, e: Step)
    requires Legal(w, e) && id in w.tasks && !(e.Result? && e.id == id)
    ensures id in Next(w, e).tasks && Next(w, e).tasks[id] == w.tasks[id]
  {
    hide ValidId, ValidName, Matching, Removed;
  }

  /** A task that nobody accepted is failed until some result names it, and then completed all the same. */
  lemma StrayResultCompletesFailedTask(es: seq<Step>, id: string)
    requires Feasible(EMPTY, es) && NoCollision(EMPTY, es) && id in Run(EMPTY, es).tasks
    ensures id in Run(EMPTY, es).accepted && id in Run(EMPTY, es).replied
    ensures var w := Run(EMPTY, es);
      w.accepted[id] == {} ==> w.tasks[id] == if w.replied[id] == {} then Failed else Completed
  {
    EmptyInv();
    RunKeeps(EMPTY, es);
  }

  /** A dotted id can name another task's entry: here the reply of y to "t.x" counts as the reply of x.y to t. */
  lemma DottedIdTakesAnotherEntry()
    ensures var es := [Incoming("t", ["x.y", "z"], [true, true]), Result("t.x", "y"), Result("t", "z")];
      Feasible(EMPTY, es) && var w := Run(EMPTY, es);
      "t" in w.tasks && w.tasks["t"] == Completed && "x.y" in w.accepted["t"] && "x.y" !in w.replied["t"]
  {
    var es := [Incoming("t", ["x.y", "z"], [true, true]), Result("t.x", "y"), Result("t", "z")];
    var w1 := Next(EMPTY, es[0]);
    ExampleDelegation();
    var w2 := OnResult(w1, "t.x", "y");
    assert FileName("t.x", "y") == "t.x.y" == FileName("t", "x.y");
    assert w2.files == {"t.z"};
    var w3 := OnResult(w2, "t", "z");
    assert FileName("t", "z") == "t.z" && w3.files == {};
    assert es[1..][0] == es[1] && es[1..][1..][0] == es[2] && es[1..][1..][1..] == [];
  }

  lemma ExampleDelegation()
    ensures Accepting(["x.y", "z"], [true, true]) == {"x.y", "z"}
    ensures Entries("t", {"x.y", "z"}) == {"t.x.y", "t.z"}
  {
    assert ["x.y", "z"][1..] == ["z"] && [true, true][1..] == [true] && ["z"][1..] == [] && [true][1..] == [];
    assert Accepting(["z"], [true]) == {"z"};
    assert FileName("t", "x.y") == "t.x.y" && FileName("t", "z") == "t.z";
  }

  // ----- the agent ------------------------------------------------------

  class FanoutAgent {
    var files: set<string>
    var tasks: map<string, TaskState>
    ghost var accepted: map<string, set<string>>
    ghost var replied: map<string, set<string>>

    ghost function State(): World
      reads this
    {
      World(files, tasks, accepted, replied)
    }

    constructor ()
      ensures State() == EMPTY
    {
      files, tasks, accepted, replied := {}, map[], map[], map[];
    }

    method PendingAdd(id: string, name: string)
      modifies this`files
      ensures files == if ValidId(id) && ValidName(name) then old(files) + {FileName(id, name)} else old(files)
    {
      if ValidId(id) && ValidName(name) { files := files + {FileName(id, name)}; }
    }

    method PendingRemove(id: string, name: string)
      modifies this`files
      ensures files == Removed(old(files), id, name)
    {
      if ValidId(id) && ValidName(name) { files := files - {FileName(id, name)}; }
    }

    /** The readdir loop; -1 for an id that cannot be a file name. */
    method PendingCount(id: string) returns (n: int)
      ensures n == if ValidId(id) then |Matching(files, id)| else -1
    {
      if !ValidId(id) { return -1; }
      var left := files;
      n := 0;
      while left != {}
        invariant left <= files && n == |Matching(files - left, id)|
        decreases left
      {
        var f :| f in left;
        ghost var seen := files - left;
        if Counted(f, id) {
          assert Matching(seen + {f}, id) == Matching(seen, id) + {f};
          n := n + 1;
        } else {
          assert Matching(seen + {f}, id) == Matching(seen, id);
        }
        left := left - {f};
        assert files - left == seen + {f};
      }
      assert files - left == files;
    }

    /** A `result` message. */
    method HandleResult(id: string, sender: string)
      modifies this
      ensures State() == OnResult(old(State()), id, sender)
    {
      if id == [] { return; }
      PendingRemove(id, sender);
      var remaining := PendingCount(id);
      if remaining == 0 && id in tasks { tasks := tasks[id := Completed]; }
      if id in replied { replied := replied[id := replied[id] + {sender}]; }
    }

    /** The delegation loop; oks[i] is whether the send to targets[i] succeeds. */
    method HandleIncoming(id: string, targets: seq<string>, oks: seq<bool>)
      requires |targets| == |oks| && ValidId(id) && forall i :: 0 <= i < |targets| && oks[i] ==> ValidName(targets[i])
      modifies this
      ensures State() == Delegate(old(State()), id, targets, oks)
    {
      accepted, replied := accepted[id := Accepting(targets, oks)], replied[id := {}];
      if |targets| == 0 {
        assert Entries(id, {}) == {};
        tasks := tasks[id := Failed];
        return;
      }
      tasks := tasks[id := Delegated];
      var i, sent := 0, 0;
      assert Entries(id, Accepting([], [])) == {};
      while i < |targets|
        invariant 0 <= i <= |targets| && tasks == old(tasks)[id := Delegated]
        invariant accepted == old(accepted)[id := Accepting(targets, oks)] && replied == old(replied)[id := {}]
        invariant files == old(files) + Entries(id, Accepting(targets[..i], oks[..i]))
        invariant sent == 0 <==> Accepting(targets[..i], oks[..i]) == {}
      {
        AcceptingSnoc(targets, oks, i);
        if oks[i] {
          PendingAdd(id, targets[i]);
          sent := sent + 1;
        }
        i := i + 1;
      }
      assert targets[..i] == targets && oks[..i] == oks;
      if sent == 0 { tasks := tasks[id := Failed]; }
      assert tasks == old(tasks)[id := if sent == 0 then Failed else Delegated];
    }
  }

  lemma {:induction false} AcceptingAppend(targets: seq<string>, oks: seq<bool>, t: string, ok: bool)
    requires |targets| == |oks|
    ensures Accepting(targets + [t], oks + [ok]) == Accepting(targets, oks) + (if ok then {t} else {})
  {
    if targets == [] {
      assert (targets + [t])[1..] == [] && (oks + [ok])[1..] == [];
    } else {
      assert (targets + [t])[1..] == targets[1..] + [t] && (oks + [ok])[1..] == oks[1..] + [ok];
      AcceptingAppend(targets[1..], oks[1..], t, ok);
    }
  }

  lemma AcceptingSnoc(targets: seq<string>, oks: seq<bool>, i: nat)
    requires i < |targets| == |oks|
    ensures var a, b := Accepting(targets[..i], oks[..i]), Accepting(targets[..i + 1], oks[..i + 1]);
      forall id :: b == a + (if oks[i] then {targets[i]} else {}) &&
        Entries(id, b) == Entries(id, a) + (if oks[i] then {FileName(id, targets[i])} else {})
  {
    assert targets[..i + 1] == targets[..i] + [targets[i]] && oks[..i + 1] == oks[..i] + [oks[i]];
    AcceptingAppend(targets[..i], oks[..i], targets[i], oks[i]);
  }
}
