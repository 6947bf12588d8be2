/** Restart accounting over whole runs: the failure counter as a function of the exit history,
    the crash-loop limit, the backoff, and who may spawn. */
module SupervisorRestart {
  import opened SupervisorModel
  import opened SupervisorSafety

  // ----- the failure counter as a function of the log -------------------

  predicate Resets(e: Event, name: string) {
    (e.Allocated? || e.OperatorStart?) && e.name == name
  }

  /** The uptimes of the restart-eligible exits of `name` since its slot was last reset. */
  function Counted(log: seq<Event>, name: string): seq<int> {
    if log == [] then []
    else
      var e, rest := log[|log| - 1], log[..|log| - 1];
      if Resets(e, name) then []
      else if e.Reaped? && e.name == name && e.eligible then Counted(rest, name) + [e.uptime]
      else Counted(rest, name)
  }

  /** `k` counts every exit of `c`, or the exits since and including its last stable one. */
  ghost predicate IsStreak(c: seq<int>, k: nat) {
    && k <= |c|
    && (forall j :: |c| - k < j < |c| ==> c[j] < RESTART_STABLE_SEC)
    && (k < |c| ==> k > 0 && c[|c| - k] >= RESTART_STABLE_SEC)
  }

  lemma StreakUnique(c: seq<int>, k: nat, l: nat)
    requires IsStreak(c, k) && IsStreak(c, l)
    ensures k == l
  {
  }

  lemma StreakStep(c: seq<int>, k: nat, u: int)
    requires IsStreak(c, k)
    ensures IsStreak(c + [u], (if u >= RESTART_STABLE_SEC then 0 else k) + 1)
  {
    var d := c + [u];
    if u < RESTART_STABLE_SEC && k < |c| { assert d[|d| - (k + 1)] == c[|c| - k]; }
  }

  /** Spawns and exits of `name` since its slot was reset. `clean` says every exit was short
      and restart-eligible, and nobody else asked for the agent to run. */
  datatype Tally = Tally(spawns: nat, exits: nat, clean: bool)

  function Tallied(log: seq<Event>, name: string): Tally {
    if log == [] then Tally(0, 0, true)
    else
      var e, t := log[|log| - 1], Tallied(log[..|log| - 1], name);
      if Resets(e, name) then Tally(0, 0, true)
      else if e.name != name then t
      else match e
        case Spawned(_) => t.(spawns := t.spawns + 1)
        case Reaped(_, u, eligible) => t.(exits := t.exits + 1, clean := t.clean && eligible && u < RESTART_STABLE_SEC)
        case _ => t.(clean := false)
  }

  lemma NoteStep(log: seq<Event>, e: Event, name: string)
    ensures (log + [e])[|log|] == e && (log + [e])[..|log|] == log
    ensures e.name != name ==>
      Counted(log + [e], name) == Counted(log, name) && Tallied(log + [e], name) == Tallied(log, name)
    ensures Resets(e, name) ==> Counted(log + [e], name) == [] && Tallied(log + [e], name) == Tally(0, 0, true)
    ensures e.Spawned? || e.DesiredRunning? || (e.Reaped? && !e.eligible) ==>
      Counted(log + [e], name) == Counted(log, name)
    ensures e.Reaped? && e.eligible && e.name == name ==> Counted(log + [e], name) == Counted(log, name) + [e.uptime]
  {
    assert (log + [e])[..|log|] == log;
  }

  /** What the bookkeeping of a used slot means. */
  ghost predicate Booked(s: Slot, disk: map<string, Settings>, log: seq<Event>) {
    && IsStreak(Counted(log, s.name), s.failures)
    && var t := Tallied(log, s.name);
       t.clean ==>
         && s.failures == t.exits <= RESTART_BURST_LIMIT
         && (if s.pid > 0 && !s.external then t.exits < RESTART_BURST_LIMIT && t.spawns == t.exits + 1
             else t.spawns == t.exits)
         && (s.external ==> t.exits == 0)
         && (t.exits == RESTART_BURST_LIMIT ==> !Get(disk, s.name).desired)
  }

  ghost predicate Books(w: World) {
    forall i :: 0 <= i < |w.slots| && w.slots[i].used ==> Booked(w.slots[i], w.disk, w.log)
  }

  /** A slot's books survive whatever does not touch that slot or its agent. */
  lemma BookedElsewhere(s: Slot, disk: map<string, Settings>, log: seq<Event>, disk': map<string, Settings>, e: Event)
    requires Booked(s, disk, log) && e.name != s.name
    requires Get(disk', s.name).desired ==> Get(disk, s.name).desired
    ensures Booked(s, disk', log + [e])
  {
    NoteStep(log, e, s.name);
  }

  /** One slot changes, one event about its agent is noted. */
  lemma BooksStep(w: World, w': World, i: nat, e: Event)
    requires Books(w) && NamesDistinct(w'.slots)
    requires i < |w.slots| == |w'.slots| && w'.slots[i].used && e.name == w'.slots[i].name
    requires forall j :: 0 <= j < |w.slots| && j != i ==> w'.slots[j] == w.slots[j]
    requires w'.log == w.log + [e]
    requires forall n: string :: n != e.name && Get(w'.disk, n).desired ==> Get(w.disk, n).desired
    requires Booked(w'.slots[i], w'.disk, w'.log)
    ensures Books(w')
  {
    forall j | 0 <= j < |w'.slots| && w'.slots[j].used ensures Booked(w'.slots[j], w'.disk, w'.log) {
      if j != i { BookedElsewhere(w.slots[j], w.disk, w.log, w'.disk, e); }
    }
  }

  /** Nothing is noted; the slot that changes keeps its name, its counter and the kind of its process. */
  lemma BooksQuiet(w: World, w': World)
    requires Books(w) && w'.log == w.log && |w'.slots| == |w.slots|
    requires forall n: string :: Get(w'.disk, n).desired ==> Get(w.disk, n).desired
    requires forall j :: 0 <= j < |w.slots| && w'.slots[j].used ==>
      var s, s' := w.slots[j], w'.slots[j];
      s.used && s'.name == s.name && s'.failures == s.failures && (s'.external ==> s.external)
      && (s'.pid > 0 && !s'.external <==> s.pid > 0 && !s.external)
    ensures Books(w')
  {
    forall j | 0 <= j < |w'.slots| && w'.slots[j].used ensures Booked(w'.slots[j], w'.disk, w'.log) {
      assert Booked(w.slots[j], w.disk, w.log);
    }
  }

  // ----- every step keeps the books -------------------------------------

  lemma AllocBooks(w: World, name: string)
    requires Core(w) && Books(w) && |name| <= SLOT_NAME_MAX
    ensures Books(Alloc(w, name))
  {
    AllocKeeps(w, name);
    var i := AllocIndex(w.slots, name);
    if i >= 0 && !w.slots[i].used {
      NoteStep(w.log, Allocated(name), name);
      BooksStep(w, Alloc(w, name), i, Allocated(name));
    }
  }

  lemma SpawnBooks(w: World, i: nat, sp: Spawn)
    requires Core(w) && Books(w) && i < |w.slots| && w.slots[i].used && !Alive(w, i) && SpawnLegal(w, sp)
    requires WantsRunning(w.disk, w.slots[i].name)
    ensures Books(DoSpawn(w, i, sp))
  {
    if sp.Forked? {
      SpawnKeeps(w, i, sp);
      assert Describes(w.slots[i], w.procs, w.everPids);
      NoteStep(w.log, Spawned(w.slots[i].name), w.slots[i].name);
      BooksStep(w, DoSpawn(w, i, sp), i, Spawned(w.slots[i].name));
    }
  }

  /** Somebody sets desired_state to running. */
  lemma BookedDesired(s: Slot, disk: map<string, Settings>, log: seq<Event>, disk': map<string, Settings>, name: string)
    requires Booked(s, disk, log)
    requires s.name != name && Get(disk', s.name).desired ==> Get(disk, s.name).desired
    ensures Booked(s, disk', log + [DesiredRunning(name)])
  {
    NoteStep(log, DesiredRunning(name), s.name);
  }

  lemma EnvBooks(w: World, e: Env)
    requires Core(w) && Books(w)
    ensures Books(ApplyEnv(w, e))
  {
    hide Booked, Core;
    var w' := ApplyEnv(w, e);
    match e
    case Configure(name, s) =>
      if s.desired {
        forall j | 0 <= j < |w'.slots| && w'.slots[j].used ensures Booked(w'.slots[j], w'.disk, w'.log) {
          BookedDesired(w.slots[j], w.disk, w.log, w'.disk, name);
        }
      } else {
        BooksQuiet(w, w');
      }
    case _ => BooksQuiet(w, w');
  }

  lemma ApplyAllBooks(w: World, es: seq<Env>)
    requires Core(w) && Books(w)
    ensures Core(ApplyAll(w, es)) && Books(ApplyAll(w, es))
    decreases |es|
  {
    if es != [] { EnvKeeps(w, es[0]); EnvBooks(w, es[0]); ApplyAllBooks(ApplyEnv(w, es[0]), es[1..]); }
  }

  /** The exit of an own process, after its slot has been cleared. */
  lemma DecideBooks(w: World, s: Slot, i: nat, e: Exit)
    requires i < |w.slots| && w.slots[i].used && NamesDistinct(w.slots)
    requires s.name == w.slots[i].name && s.failures == w.slots[i].failures && s.pid > 0 && !s.external
    requires w.slots[i].pid == 0 && !w.slots[i].external
    requires Booked(s, w.disk, w.log)
    requires forall j :: 0 <= j < |w.slots| && j != i && w.slots[j].used ==> Booked(w.slots[j], w.disk, w.log)
    requires FailuresAfter(s, w.now) > 0
    ensures Books(Decide(w, i, e, Uptime(s, w.now), FailuresAfter(s, w.now)))
  {
    hide Booked, Decide;
    var u, k := Uptime(s, w.now), FailuresAfter(s, w.now);
    var w' := Decide(w, i, e, u, k);
    DecideFrame(w, i, e, u, k);
    var ev := DecideNotes(w, i, e, u, k);
    DecideBooksOwn(w, s, i, e);
    forall j | 0 <= j < |w'.slots| && w'.slots[j].used ensures Booked(w'.slots[j], w'.disk, w'.log) {
      if j != i { BookedElsewhere(w.slots[j], w.disk, w.log, w'.disk, ev); }
    }
  }

  lemma DecideNotes(w: World, i: nat, e: Exit, u: int, k: nat) returns (ev: Event)
    requires i < |w.slots| && k > 0
    ensures var w' := Decide(w, i, e, u, k);
      && w'.log == w.log + [ev] && ev.name == w.slots[i].name
      && forall n: string :: Get(w'.disk, n).desired ==> Get(w.disk, n).desired
  {
    ev := Decide(w, i, e, u, k).log[|w.log|];
  }

  lemma DecideBooksOwn(w: World, s: Slot, i: nat, e: Exit)
    requires i < |w.slots| && w.slots[i].used
    requires s.name == w.slots[i].name && s.failures == w.slots[i].failures && s.pid > 0 && !s.external
    requires w.slots[i].pid == 0 && !w.slots[i].external && Booked(s, w.disk, w.log) && FailuresAfter(s, w.now) > 0
    ensures var w' := Decide(w, i, e, Uptime(s, w.now), FailuresAfter(s, w.now)); Booked(w'.slots[i], w'.disk, w'.log)
  {
    var u, k := Uptime(s, w.now), FailuresAfter(s, w.now);
    var w' := Decide(w, i, e, u, k);
    var ev := w'.log[|w.log|];
    assert w'.log == w.log + [ev];
    NoteStep(w.log, ev, s.name);
    StreakStep(Counted(w.log, s.name), s.failures, u);
  }

  lemma ReapOneBooks(w: World)
    requires Core(w) && Books(w) && w.waitq != []
    ensures Books(ReapOne(w))
  {
    var z := w.waitq[0];
    var w0 := w.(waitq := w.waitq[1..], procs := w.procs - {z.pid});
    var i := FindByPid(w.slots, z.pid);
    if i < 0 {
      BooksQuiet(w, w0);
    } else {
      var s := w.slots[i];
      assert Describes(s, w.procs, w.everPids);
      assert Booked(s, w.disk, w.log);
      ReapClearKeeps(w, i);
      var w1 := SetStatus(Clear(w0, i), s.name, ExitStatus(z.exit));
      forall j | 0 <= j < |w1.slots| && j != i && w1.slots[j].used ensures Booked(w1.slots[j], w1.disk, w1.log) {
        assert Booked(w.slots[j], w.disk, w.log);
      }
      DecideBooks(w1, s, i, z.exit);
    }
  }

  lemma ReapAllBooks(w: World)
    requires Core(w) && Books(w)
    ensures Books(ReapAll(w))
    decreases |w.waitq|
  {
    if w.waitq != [] { ReapOneQueue(w); ReapOneKeeps(w); ReapOneBooks(w); ReapAllBooks(ReapOne(w)); }
  }

  lemma ClearBooks(w: World, i: nat)
    requires Core(w) && Books(w) && i < |w.slots| && w.slots[i].used && !Alive(w, i)
    ensures Books(Clear(w, i))
  {
    assert Describes(w.slots[i], w.procs, w.everPids);
    BooksQuiet(w, Clear(w, i));
  }

  /** Which slots are in use, and whose they are. */
  ghost predicate SameOwners(a: seq<Slot>, b: seq<Slot>) {
    |a| == |b| && forall j :: 0 <= j < |a| ==> a[j].used == b[j].used && a[j].name == b[j].name
  }

  lemma ReapAllOwners(w: World)
    ensures SameOwners(w.slots, ReapAll(w).slots)
    decreases |w.waitq|
  {
    if w.waitq != [] {
      ReapOneQueue(w);
      var z := w.waitq[0];
      var i := FindByPid(w.slots, z.pid);
      if i >= 0 {
        var w0 := w.(waitq := w.waitq[1..], procs := w.procs - {z.pid});
        var w1 := SetStatus(Clear(w0, i), w.slots[i].name, ExitStatus(z.exit));
        DecideFrame(w1, i, z.exit, Uptime(w.slots[i], w.now), FailuresAfter(w.slots[i], w.now));
      }
      ReapAllOwners(ReapOne(w));
    }
  }

  lemma StopRoundBooks(w: World, es: seq<Env>)
    requires Core(w) && Books(w)
    ensures Core(StopRound(w, es)) && Books(StopRound(w, es)) && SameOwners(w.slots, StopRound(w, es).slots)
  {
    ApplyAllBooks(w, es);
    ApplyAllSlots(w, es);
    ReapAllKeeps(ApplyAll(w, es));
    ReapAllBooks(ApplyAll(w, es));
    ReapAllOwners(ApplyAll(w, es));
  }

  lemma StopLoopBooks(w: World, i: nat, script: seq<seq<Env>>)
    requires Core(w) && Books(w) && i < |w.slots| && w.slots[i].used
    ensures Books(StopLoop(w, i, script)) && SameOwners(w.slots, StopLoop(w, i, script).slots)
    decreases |script|
  {
    if script == [] {
      BooksQuiet(w, Kill(w, i));
    } else {
      StopRoundBooks(w, script[0]);
      var w1 := StopRound(w, script[0]);
      if !Alive(w1, i) { ClearBooks(w1, i); } else { StopLoopBooks(w1, i, script[1..]); }
    }
  }

  lemma StopAgentBooks(w: World, i: nat, script: seq<seq<Env>>)
    requires Core(w) && Books(w) && i < |w.slots| && w.slots[i].used
    ensures Books(StopAgent(w, i, script)) && SameOwners(w.slots, StopAgent(w, i, script).slots)
  {
    if !Alive(w, i) { ClearBooks(w, i); } else { StopLoopBooks(w, i, script); }
  }

  lemma DropExternalBooks(w: World, i: nat)
    requires Core(w) && Books(w) && i < |w.slots| && !Alive(w, i)
    ensures Books(DropExternal(w, i))
  {
    assert Describes(w.slots[i], w.procs, w.everPids);
    BooksQuiet(w, DropExternal(w, i));
  }

  lemma AfterExternalBooks(w: World, name: string)
    requires Core(w) && Books(w)
    ensures Books(AfterExternal(w, name)) && SameOwners(w.slots, AfterExternal(w, name).slots)
    ensures WantsRunning(AfterExternal(w, name).disk, name) == WantsRunning(w.disk, name)
  {
    var i := FindByName(w.slots, name);
    if i >= 0 && ExternalGone(w, i) { DropExternalBooks(w, i); }
  }

  lemma ReconcileBooks(w: World, name: string, sp: Spawn, script: seq<seq<Env>>)
    requires Core(w) && Books(w) && |name| <= SLOT_NAME_MAX && SpawnLegal(AfterExternal(w, name), sp)
    ensures Books(Reconcile(w, name, sp, script))
  {
    hide Core, Books;
    AfterExternalKeeps(w, name);
    AfterExternalBooks(w, name);
    var w1 := AfterExternal(w, name);
    var i := FindByName(w1.slots, name);
    var alive := i >= 0 && Alive(w1, i);
    if WantsRunning(w.disk, name) && !alive {
      AllocKeeps(w1, name);
      AllocBooks(w1, name);
      var k, w2 := AllocIndex(w1.slots, name), Alloc(w1, name);
      if k >= 0 && w2.slots[k].nextRestartAt <= w2.now {
        if Outcome(w2, k, sp).SpawnFailed? {
          BooksQuiet(w2, ReconcileStart(w1, name, sp));
        } else {
          SpawnBooks(w2, k, sp);
        }
      }
    } else if alive && !WantsRunning(w.disk, name) {
      StopAgentBooks(w1, i, script);
    }
  }

  /** An explicit start opens new books for the agent. */
  lemma ClearBackoffBooks(w: World, i: nat)
    requires Core(w) && i < |w.slots| && w.slots[i].used && !Alive(w, i)
    requires forall j :: 0 <= j < |w.slots| && j != i && w.slots[j].used ==> Booked(w.slots[j], w.disk, w.log)
    ensures Books(ClearBackoff(w, i))
  {
    var w', e := ClearBackoff(w, i), OperatorStart(w.slots[i].name);
    assert Describes(w.slots[i], w.procs, w.everPids);
    NoteStep(w.log, e, w.slots[i].name);
    forall j | 0 <= j < |w'.slots| && w'.slots[j].used ensures Booked(w'.slots[j], w'.disk, w'.log) {
      if j != i { BookedElsewhere(w.slots[j], w.disk, w.log, w'.disk, e); }
    }
  }

  lemma StartSettingsWant(w: World, name: string)
    requires name in w.disk
    ensures WantsRunning(StartSettings(w, name).disk, name)
    ensures forall n: string :: n != name ==> Get(StartSettings(w, name).disk, n) == Get(w.disk, n)
  {
  }

  /** Writing `running` and finding a slot for `name`: only that slot's books can be off. */
  lemma StartAllocBooks(w: World, name: string)
    requires Core(w) && Books(w) && |name| <= SLOT_NAME_MAX && name in w.disk
    ensures var w2, i := Alloc(StartSettings(w, name), name), AllocIndex(w.slots, name);
      && Core(w2) && WantsRunning(w2.disk, name)
      && w2.procs == w.procs && w2.everPids == w.everPids && w2.open == w.open
      && (i >= 0 ==>
            && i < |w2.slots| && w2.slots[i].used && w2.slots[i].name == name
            && Booked(w2.slots[i], w.disk, w2.log))
      && (forall j :: 0 <= j < |w2.slots| && j != i && w2.slots[j].used ==> Booked(w2.slots[j], w2.disk, w2.log))
  {
    var w1 := StartSettings(w, name);
    StartSettingsWant(w, name);
    CoreFrame(w, w1);
    AllocKeeps(w1, name);
    AllocKeeps(w, name);
    AllocBooks(w, name);
    var w2, i := Alloc(w1, name), AllocIndex(w.slots, name);
    assert w2.slots == Alloc(w, name).slots && w2.log == Alloc(w, name).log;
    forall j | 0 <= j < |w2.slots| && w2.slots[j].used && j != i ensures Booked(w2.slots[j], w2.disk, w2.log) {
      assert Booked(w2.slots[j], w.disk, w2.log);
      assert w2.slots[j].name != name;
    }
  }

  lemma StartBooks(w: World, name: string, sp: Spawn)
    requires Core(w) && Books(w) && |name| <= SLOT_NAME_MAX && SpawnLegal(w, sp)
    ensures Books(Start(w, name, sp))
  {
    if KnownAgent(w, name) {
      StartAllocBooks(w, name);
      var w2, i := Alloc(StartSettings(w, name), name), AllocIndex(w.slots, name);
      if i >= 0 && !Alive(w2, i) {
        var w3 := ClearBackoff(w2, i);
        ClearBackoffBooks(w2, i);
        CoreSameRuntime(w2, w3, i);
        assert w3.disk == w2.disk && w3.slots[i].name == name && w3.open == w2.open;
        SpawnBooks(w3, i, sp);
      }
    }
  }

  lemma ReleaseBooks(w: World, i: nat)
    requires Books(w) && i < |w.slots|
    ensures Books(Release(w, i))
  {
    BooksQuiet(w, Release(w, i));
  }

  lemma StopBooks(w: World, name: string, script: seq<seq<Env>>)
    requires Core(w) && Books(w)
    ensures Books(Stop(w, name, script))
  {
    if KnownAgent(w, name) {
      var w1 := SetDesired(w, name, false);
      CoreFrame(w, w1);
      BooksQuiet(w, w1);
      var i := FindByName(w1.slots, name);
      if i >= 0 {
        StopAgentBooks(w1, i, script);
        ReleaseBooks(StopAgent(w1, i, script), i);
      }
    }
  }

  lemma StepBooks(w: World, s: Step)
    requires Core(w) && Books(w) && Legal(w, s) && StepNameFits(s)
    ensures Books(Next(w, s))
  {
    match s
    case Environment(e) => EnvBooks(w, e);
    case ReapStep => ReapAllBooks(w);
    case ReconcileStep(name, sp, script) => ReconcileBooks(w, name, sp, script);
    case SweepStep(i) => if i < |w.slots| && w.slots[i].external { DropExternalBooks(w, i); }
    case ForgetStep(name) =>
      var i := FindByName(w.slots, name);
      if i >= 0 && w.slots[i].pid == 0 { ReleaseBooks(w, i); }
    case StartStep(name, sp) => StartBooks(w, name, sp);
    case StopStep(name, script) => StopBooks(w, name, script);
    case RestartStep(name, sp, script) =>
      StopKeeps(w, name, script);
      StopBooks(w, name, script);
      StartBooks(Stop(w, name, script), name, sp);
  }

  lemma {:induction false} RunBooks(w: World, steps: seq<Step>)
    requires Core(w) && Books(w) && LegalRun(w, steps) && NamesFit(steps)
    ensures Core(Run(w, steps)) && Books(Run(w, steps))
    decreases |steps|
  {
    if steps != [] {
      StepKeeps(w, steps[0]);
      StepBooks(w, steps[0]);
      RunBooks(Next(w, steps[0]), steps[1..]);
    }
  }

  /** In every run, the counter of a slot is the one streak of its exit history. */
  lemma FailuresAreTheStreak(w: World, steps: seq<Step>, i: nat)
    requires Core(w) && Books(w) && LegalRun(w, steps) && NamesFit(steps)
    requires var w' := Run(w, steps); i < |w'.slots| && w'.slots[i].used
    ensures var w' := Run(w, steps);
      forall k: nat :: IsStreak(Counted(w'.log, w'.slots[i].name), k) <==> k == w'.slots[i].failures
  {
    RunBooks(w, steps);
    var w' := Run(w, steps);
    var c := Counted(w'.log, w'.slots[i].name);
    assert Booked(w'.slots[i], w'.disk, w'.log);
    forall k: nat | IsStreak(c, k) ensures k == w'.slots[i].failures { StreakUnique(c, k, w'.slots[i].failures); }
  }

  /** An agent whose exits since its last reset were all short and restart-eligible is spawned
      at most five times; after the fifth exit it has been spawned exactly five times and its
      desired state is stopped. */
  lemma CrashLoopAfterFiveSpawns(w: World, steps: seq<Step>, i: nat)
    requires Core(w) && Books(w) && LegalRun(w, steps) && NamesFit(steps)
    requires var w' := Run(w, steps); i < |w'.slots| && w'.slots[i].used && Tallied(w'.log, w'.slots[i].name).clean
    ensures var w' := Run(w, steps);
      var s, t := w'.slots[i], Tallied(w'.log, w'.slots[i].name);
      && t.spawns <= RESTART_BURST_LIMIT && t.exits <= t.spawns <= t.exits + 1
      && (t.exits == RESTART_BURST_LIMIT ==> t.spawns == RESTART_BURST_LIMIT && !Get(w'.disk, s.name).desired)
      && (t.spawns == t.exits + 1 <==> s.pid > 0 && !s.external)
  {
    RunBooks(w, steps);
    assert Booked(Run(w, steps).slots[i], Run(w, steps).disk, Run(w, steps).log);
  }
}
