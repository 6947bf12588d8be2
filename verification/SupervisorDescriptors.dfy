/** The descriptors agentd holds for its agents, over every run. */
module SupervisorDescriptors {
  import opened AgentNames
  import opened SupervisorModel
  import opened SupervisorSafety

  /** Slots share no descriptor, hold only open ones, and adopted runtimes have only a pidfd.
      A free slot says nothing of an adopted runtime. */
  ghost predicate Ledger(w: World) {
    && (forall i, j :: 0 <= i < j < |w.slots| && w.slots[i].used && w.slots[j].used ==>
      Fds(w.slots[i]) !! Fds(w.slots[j]))
    && (forall i :: 0 <= i < |w.slots| && w.slots[i].used ==> Fds(w.slots[i]) <= w.open)
    && (forall i :: 0 <= i < |w.slots| && w.slots[i].used && w.slots[i].external ==>
          w.slots[i].brokerFd < 0 && w.slots[i].inboxFd < 0)
    && (forall i :: 0 <= i < |w.slots| && !w.slots[i].used ==> !w.slots[i].external)
  }

  ghost function HeldFds(slots: seq<Slot>): set<int> {
    set i, fd | 0 <= i < |slots| && slots[i].used && fd in Fds(slots[i]) :: fd
  }

  /** No descriptor is open that no slot remembers. */
  ghost predicate NothingLeaked(w: World) {
    w.open <= HeldFds(w.slots)
  }

  ghost predicate Balanced(w: World, w': World) {
    Ledger(w') && (NothingLeaked(w) ==> NothingLeaked(w'))
  }

  // ----- the primitives -------------------------------------------------

  /** One slot changes; what it no longer holds is closed, what it newly holds is opened. */
  lemma SlotBalanced(w: World, w': World, i: nat)
    requires Ledger(w) && i < |w.slots| == |w'.slots|
    requires w'.slots == w.slots[i := w'.slots[i]]
    requires var f := if w.slots[i].used then Fds(w.slots[i]) else {};
      var f' := if w'.slots[i].used then Fds(w'.slots[i]) else {};
      && w'.open == w.open - (f - f') + (f' - f) && (f' - f) !! w.open
      && (w'.slots[i].external ==> w'.slots[i].used && w'.slots[i].brokerFd < 0 && w'.slots[i].inboxFd < 0)
    ensures Balanced(w, w')
  {
    if NothingLeaked(w) {
      forall fd | fd in w'.open ensures fd in HeldFds(w'.slots) {
        if w'.slots[i].used && fd in Fds(w'.slots[i]) {
        } else {
          assert fd in w.open && fd in HeldFds(w.slots);
          var j :| 0 <= j < |w.slots| && w.slots[j].used && fd in Fds(w.slots[j]);
          assert j != i && w'.slots[j] == w.slots[j];
        }
      }
    }
  }

  lemma ClearBalanced(w: World, i: nat)
    requires Ledger(w) && i < |w.slots| && w.slots[i].used
    ensures Balanced(w, Clear(w, i))
  {
    SlotBalanced(w, Clear(w, i), i);
  }

  lemma ReleaseBalanced(w: World, i: nat)
    requires Ledger(w) && i < |w.slots| && w.slots[i].used
    ensures Balanced(w, Release(w, i))
  {
    SlotBalanced(w, Release(w, i), i);
  }

  lemma AllocBalanced(w: World, name: string)
    requires Ledger(w)
    ensures Balanced(w, Alloc(w, name))
  {
    var i := AllocIndex(w.slots, name);
    if i >= 0 && !w.slots[i].used { SlotBalanced(w, Alloc(w, name), i); }
  }

  /** Fields other than the descriptors play no part. */
  lemma SameFdsBalanced(w: World, w': World)
    requires Ledger(w) && |w'.slots| == |w.slots| && w'.open == w.open
    requires forall j :: 0 <= j < |w.slots| ==>
      var s, s' := w.slots[j], w'.slots[j];
      && s'.used == s.used && (s'.external ==> s.external)
      && s'.pidfd == s.pidfd && s'.brokerFd == s.brokerFd && s'.inboxFd == s.inboxFd
    ensures Balanced(w, w')
  {
    assert forall j :: 0 <= j < |w.slots| ==> Fds(w'.slots[j]) == Fds(w.slots[j]);
    assert HeldFds(w'.slots) == HeldFds(w.slots) by {
      forall fd | fd in HeldFds(w.slots) ensures fd in HeldFds(w'.slots) {
        var j :| 0 <= j < |w.slots| && w.slots[j].used && fd in Fds(w.slots[j]);
        assert w'.slots[j].used && fd in Fds(w'.slots[j]);
      }
    }
  }

  /** A spawn over a slot that still holds descriptors loses exactly those. */
  lemma SpawnBalance(w: World, i: nat, sp: Spawn)
    requires Ledger(w) && i < |w.slots| && w.slots[i].used && SpawnLegal(w, sp)
    ensures Ledger(DoSpawn(w, i, sp))
    ensures NothingLeaked(w) ==> (NothingLeaked(DoSpawn(w, i, sp)) <==> sp.SpawnFailed? || Fds(w.slots[i]) == {})
  {
    if sp.Forked? {
      var w' := DoSpawn(w, i, sp);
      assert Fds(w'.slots[i]) == SpawnFds(sp) && SpawnFds(sp) !! w.open;
      if Fds(w.slots[i]) == {} {
        SlotBalanced(w, w', i);
      } else {
        var lost :| lost in Fds(w.slots[i]);
        forall j | 0 <= j < |w'.slots| && w'.slots[j].used ensures lost !in Fds(w'.slots[j]) {
          if j != i { assert w'.slots[j] == w.slots[j]; }
        }
        assert lost in w'.open && lost !in HeldFds(w'.slots);
      }
    }
  }

  // ----- the reaper and stop --------------------------------------------

  lemma ReapOneBalanced(w: World)
    requires Ledger(w) && w.waitq != []
    ensures Balanced(w, ReapOne(w))
  {
    var z := w.waitq[0];
    var w0 := w.(waitq := w.waitq[1..], procs := w.procs - {z.pid});
    var i := FindByPid(w.slots, z.pid);
    SameFdsBalanced(w, w0);
    if i >= 0 {
      ClearBalanced(w0, i);
      var w1 := SetStatus(Clear(w0, i), w.slots[i].name, ExitStatus(z.exit));
      SameFdsBalanced(Clear(w0, i), w1);
      DecideFrame(w1, i, z.exit, Uptime(w.slots[i], w.now), FailuresAfter(w.slots[i], w.now));
      SameFdsBalanced(w1, ReapOne(w));
    }
  }

  lemma ReapAllBalanced(w: World)
    requires Ledger(w)
    ensures Balanced(w, ReapAll(w))
    decreases |w.waitq|
  {
    if w.waitq != [] { ReapOneQueue(w); ReapOneBalanced(w); ReapAllBalanced(ReapOne(w)); }
  }

  lemma ApplyAllBalanced(w: World, es: seq<Env>)
    requires Ledger(w)
    ensures Balanced(w, ApplyAll(w, es))
    decreases |es|
  {
    if es != [] { SameFdsBalanced(w, ApplyEnv(w, es[0])); ApplyAllBalanced(ApplyEnv(w, es[0]), es[1..]); }
  }

  lemma ReapAllUsed(w: World)
    ensures |ReapAll(w).slots| == |w.slots|
    ensures forall j :: 0 <= j < |w.slots| ==> ReapAll(w).slots[j].used == w.slots[j].used
    decreases |w.waitq|
  {
    if w.waitq != [] {
      ReapOneQueue(w);
      var z := w.waitq[0];
      var i := FindByPid(w.slots, z.pid);
      if i >= 0 {
        var w0 := w.(waitq := w.waitq[1..], procs := w.procs - {z.pid});
        var w1 := SetStatus(Clear(w0, i), w.slots[i].name, ExitStatus(z.exit));
        DecideFrame(w1, i, z.exit, Uptime(w.slots[i], w.now), FailuresAfter(w.slots[i], w.now));
      }
      ReapAllUsed(ReapOne(w));
    }
  }

  lemma StopLoopBalanced(w: World, i: nat, script: seq<seq<Env>>)
    requires Ledger(w) && i < |w.slots| && w.slots[i].used
    ensures Balanced(w, StopLoop(w, i, script)) && |StopLoop(w, i, script).slots| == |w.slots|
    ensures StopLoop(w, i, script).slots[i].used
    decreases |script|
  {
    if script == [] {
      SameFdsBalanced(w, Kill(w, i));
    } else {
      ApplyAllBalanced(w, script[0]);
      ApplyAllSlots(w, script[0]);
      ReapAllBalanced(ApplyAll(w, script[0]));
      ReapAllUsed(ApplyAll(w, script[0]));
      var w1 := StopRound(w, script[0]);
      if !Alive(w1, i) { ClearBalanced(w1, i); } else { StopLoopBalanced(w1, i, script[1..]); }
    }
  }

  lemma StopAgentBalanced(w: World, i: nat, script: seq<seq<Env>>)
    requires Ledger(w) && i < |w.slots| && w.slots[i].used
    ensures var w' := StopAgent(w, i, script); Balanced(w, w') && |w'.slots| == |w.slots| && w'.slots[i].used
  {
    if !Alive(w, i) { ClearBalanced(w, i); } else { StopLoopBalanced(w, i, script); }
  }

  lemma StopBalanced(w: World, name: string, script: seq<seq<Env>>)
    requires Ledger(w)
    ensures Balanced(w, Stop(w, name, script))
    ensures KnownAgent(w, name) && Core(w) ==> FindByName(Stop(w, name, script).slots, name) < 0
  {
    if KnownAgent(w, name) {
      var w1 := SetDesired(w, name, false);
      SameFdsBalanced(w, w1);
      var i := FindByName(w1.slots, name);
      if i >= 0 {
        StopAgentBalanced(w1, i, script);
        var w2 := StopAgent(w1, i, script);
        ReleaseBalanced(w2, i);
        if Core(w) {
          CoreFrame(w, w1);
          StopAgentKeeps(w1, i, script);
          StopAgentOwner(w1, i, script);
        }
      }
    }
  }

  lemma ReapAllOwner(w: World, i: nat)
    requires i < |w.slots|
    ensures |ReapAll(w).slots| == |w.slots| && ReapAll(w).slots[i].name == w.slots[i].name
    decreases |w.waitq|
  {
    if w.waitq != [] {
      ReapOneQueue(w);
      var z := w.waitq[0];
      var k := FindByPid(w.slots, z.pid);
      if k >= 0 {
        var w0 := w.(waitq := w.waitq[1..], procs := w.procs - {z.pid});
        var w1 := SetStatus(Clear(w0, k), w.slots[k].name, ExitStatus(z.exit));
        DecideFrame(w1, k, z.exit, Uptime(w.slots[k], w.now), FailuresAfter(w.slots[k], w.now));
      }
      ReapAllOwner(ReapOne(w), i);
    }
  }

  lemma StopAgentOwner(w: World, i: nat, script: seq<seq<Env>>)
    requires i < |w.slots|
    ensures var w' := StopAgent(w, i, script); |w'.slots| == |w.slots| && w'.slots[i].name == w.slots[i].name
    decreases |script|
  {
    if Alive(w, i) && script != [] {
      ApplyAllSlots(w, script[0]);
      ReapAllOwner(ApplyAll(w, script[0]), i);
      var w1 := StopRound(w, script[0]);
      if Alive(w1, i) { StopAgentOwner(w1, i, script[1..]); }
    }
  }

  // ----- the handlers ---------------------------------------------------

  lemma DropExternalBalanced(w: World, i: nat)
    requires Ledger(w) && i < |w.slots| && w.slots[i].used
    ensures Balanced(w, DropExternal(w, i))
  {
    var w1 := SetStatus(w, w.slots[i].name, Stopped);
    SameFdsBalanced(w, w1);
    ClearBalanced(w1, i);
    SameFdsBalanced(Clear(w1, i), DropExternal(w, i));
  }

  lemma AfterExternalBalanced(w: World, name: string)
    requires Ledger(w)
    ensures Balanced(w, AfterExternal(w, name))
  {
    var i := FindByName(w.slots, name);
    if i >= 0 && ExternalGone(w, i) { DropExternalBalanced(w, i); } else { SameFdsBalanced(w, w); }
  }

  lemma AllocIdle(w: World, name: string)
    requires Core(w) && |name| <= SLOT_NAME_MAX
    requires FindByName(w.slots, name) >= 0 ==> w.slots[FindByName(w.slots, name)].pid == 0
    ensures var i, w1 := AllocIndex(w.slots, name), Alloc(w, name);
      && |w1.slots| == |w.slots| && w1.open == w.open && w1.everPids == w.everPids
      && (i >= 0 ==> w1.slots[i].used && Fds(w1.slots[i]) == {})
  {
    AllocKeeps(w, name);
    var i, w1 := AllocIndex(w.slots, name), Alloc(w, name);
    if i >= 0 { assert Idle(w1.slots[i]); }
  }

  lemma SpawnOrRetryBalanced(w: World, i: nat, sp: Spawn)
    requires Ledger(w) && i < |w.slots| && w.slots[i].used && Fds(w.slots[i]) == {} && SpawnLegal(w, sp)
    ensures Balanced(w, TrySpawn(w, i, sp))
    ensures Balanced(w, w.(slots := w.slots[i := w.slots[i].(nextRestartAt := w.now + 1)]))
  {
    SpawnBalance(w, i, Outcome(w, i, sp));
    SameFdsBalanced(w, w.(slots := w.slots[i := w.slots[i].(nextRestartAt := w.now + 1)]));
  }

  lemma ReconcileStartFromIdle(w: World, name: string, sp: Spawn)
    requires Ledger(w)
    requires var i, w1 := AllocIndex(w.slots, name), Alloc(w, name);
      i >= 0 ==> i < |w1.slots| && w1.slots[i].used && Fds(w1.slots[i]) == {} && SpawnLegal(w1, sp)
    ensures Balanced(w, ReconcileStart(w, name, sp))
  {
    hide Ledger, NothingLeaked, Alloc, AllocIndex, DoSpawn, SpawnLegal, Fds;
    AllocBalanced(w, name);
    var i, w1, w' := AllocIndex(w.slots, name), Alloc(w, name), ReconcileStart(w, name, sp);
    if i < 0 || w1.slots[i].nextRestartAt > w1.now {
      assert w' == w1;
    } else {
      SpawnOrRetryBalanced(w1, i, sp);
      assert Balanced(w1, w');
    }
  }

  /** In reconcile the slot that gets a process holds no descriptor any more. */
  lemma ReconcileStartBalanced(w: World, name: string, sp: Spawn)
    requires Core(w) && Ledger(w) && |name| <= SLOT_NAME_MAX && SpawnLegal(w, sp)
    requires FindByName(w.slots, name) >= 0 ==> w.slots[FindByName(w.slots, name)].pid == 0
    ensures Balanced(w, ReconcileStart(w, name, sp))
  {
    AllocIdle(w, name);
    ReconcileStartFromIdle(w, name, sp);
  }

  lemma ReconcileBalanced(w: World, name: string, sp: Spawn, script: seq<seq<Env>>)
    requires Core(w) && Ledger(w) && |name| <= SLOT_NAME_MAX && SpawnLegal(AfterExternal(w, name), sp)
    ensures Balanced(w, Reconcile(w, name, sp, script))
  {
    AfterExternalKeeps(w, name);
    AfterExternalBalanced(w, name);
    var w1 := AfterExternal(w, name);
    var i := FindByName(w1.slots, name);
    var alive := i >= 0 && Alive(w1, i);
    if WantsRunning(w.disk, name) && !alive {
      if i >= 0 { NotAliveAfterExternal(w, name); }
      ReconcileStartBalanced(w1, name, sp);
    } else if alive && !WantsRunning(w.disk, name) {
      StopAgentBalanced(w1, i, script);
    }
  }

  /** A start that finds a slot whose adopted runtime has died, before the slot was cleaned up,
      and that still holds the pidfd of that runtime. */
  predicate StartsOverPidfd(w: World, s: Step) {
    s.StartStep? && s.sp.Forked? && KnownAgent(w, s.name) &&
    var i := FindByName(w.slots, s.name); i >= 0 && !Alive(w, i) && w.slots[i].pidfd >= 0
  }

  lemma StartAllocBalanced(w: World, name: string)
    requires Core(w) && Ledger(w) && |name| <= SLOT_NAME_MAX && name in w.disk
    ensures var w2, i := Alloc(StartSettings(w, name), name), AllocIndex(w.slots, name);
      && Core(w2) && Balanced(w, w2) && w2.open == w.open && w2.everPids == w.everPids && w2.procs == w.procs
      && (i >= 0 ==> i < |w2.slots| && w2.slots[i].used && w2.slots[i].name in w2.disk)
      && (i >= 0 && FindByName(w.slots, name) >= 0 ==> w2.slots[i] == w.slots[i])
      && (i >= 0 && FindByName(w.slots, name) < 0 ==> w2.slots[i] == FreshSlot(name))
  {
    var w1 := StartSettings(w, name);
    CoreFrame(w, w1);
    SameFdsBalanced(w, w1);
    AllocKeeps(w1, name);
    AllocBalanced(w1, name);
  }

  lemma DeadSlotHoldsPidfdOnly(w: World, i: nat)
    requires Core(w) && Ledger(w) && i < |w.slots| && w.slots[i].used && !Alive(w, i)
    ensures Fds(w.slots[i]) == {} <==> w.slots[i].pidfd < 0
  {
    assert Describes(w.slots[i], w.procs, w.everPids);
  }

  lemma StartBalance(w: World, name: string, sp: Spawn)
    requires Core(w) && Ledger(w) && |name| <= SLOT_NAME_MAX && SpawnLegal(w, sp)
    ensures Ledger(Start(w, name, sp))
    ensures NothingLeaked(w) ==> (NothingLeaked(Start(w, name, sp)) <==> !StartsOverPidfd(w, StartStep(name, sp)))
  {
    hide Core, Ledger, NothingLeaked, ValidName, DoSpawn, Alloc;
    if KnownAgent(w, name) {
      StartAllocBalanced(w, name);
      var i, w2 := AllocIndex(w.slots, name), Alloc(StartSettings(w, name), name);
      if i >= 0 && !Alive(w2, i) {
        DeadSlotHoldsPidfdOnly(w2, i);
        StartSpawnBalance(w2, i, sp);
      }
    }
  }

  lemma StartSpawnBalance(w: World, i: nat, sp: Spawn)
    requires Ledger(w) && i < |w.slots| && w.slots[i].used && SpawnLegal(w, sp)
    ensures var w' := DoSpawn(ClearBackoff(w, i), i, sp);
      Ledger(w') && (NothingLeaked(w) ==> (NothingLeaked(w') <==> sp.SpawnFailed? || Fds(w.slots[i]) == {}))
  {
    SameFdsBalanced(w, ClearBackoff(w, i));
    SpawnBalance(ClearBackoff(w, i), i, sp);
  }

  lemma RestartBalance(w: World, name: string, sp: Spawn, script: seq<seq<Env>>)
    requires Core(w) && Ledger(w) && |name| <= SLOT_NAME_MAX && SpawnLegal(Stop(w, name, script), sp)
    ensures Balanced(w, Restart(w, name, script, sp))
  {
    StopBalanced(w, name, script);
    StopKeeps(w, name, script);
    var w1 := Stop(w, name, script);
    if KnownAgent(w1, name) && KnownAgent(w, name) {
      StartBalance(w1, name, sp);
    }
  }

  /** Every step keeps the ledger, and leaks a descriptor exactly when it starts over a pidfd. */
  lemma StepLeaksIffStartOverPidfd(w: World, s: Step)
    requires Core(w) && Ledger(w) && Legal(w, s) && StepNameFits(s)
    ensures Ledger(Next(w, s))
    ensures NothingLeaked(w) ==> (NothingLeaked(Next(w, s)) <==> !StartsOverPidfd(w, s))
  {
    match s
    case Environment(e) => SameFdsBalanced(w, ApplyEnv(w, e));
    case ReapStep => ReapAllBalanced(w);
    case ReconcileStep(name, sp, script) => ReconcileBalanced(w, name, sp, script);
    case SweepStep(i) =>
      if i < |w.slots| && w.slots[i].pidfd >= 0 && w.slots[i].external { DropExternalBalanced(w, i); }
    case ForgetStep(name) =>
      var i := FindByName(w.slots, name);
      if i >= 0 && w.slots[i].pid == 0 { ReleaseBalanced(w, i); }
    case StartStep(name, sp) => StartBalance(w, name, sp);
    case StopStep(name, script) => StopBalanced(w, name, script);
    case RestartStep(name, sp, script) => RestartBalance(w, name, sp, script);
  }

  predicate NeverStartsOverPidfd(w: World, steps: seq<Step>)
    decreases |steps|
  {
    steps == [] || (!StartsOverPidfd(w, steps[0]) && NeverStartsOverPidfd(Next(w, steps[0]), steps[1..]))
  }

  /** In every run, every slot's descriptors are its own and open; and nothing is leaked for as
      long as no start hits the window between an adopted runtime's death and its cleanup. */
  lemma {:induction false} RunLeaksNothing(w: World, steps: seq<Step>)
    requires Core(w) && Ledger(w) && LegalRun(w, steps) && NamesFit(steps)
    ensures Ledger(Run(w, steps))
    ensures NothingLeaked(w) && NeverStartsOverPidfd(w, steps) ==> NothingLeaked(Run(w, steps))
    decreases |steps|
  {
    if steps != [] {
      StepKeeps(w, steps[0]);
      StepLeaksIffStartOverPidfd(w, steps[0]);
      RunLeaksNothing(Next(w, steps[0]), steps[1..]);
    }
  }

  /** The window exists: an adopted runtime dies, and the operator starts the agent before
      the main loop has looked at the pidfd. */
  lemma DeadAdoptedRuntimeLeaksItsPidfd(w: World, i: nat, e: Exit, sp: Spawn)
    requires Core(w) && Ledger(w) && NothingLeaked(w)
    requires i < |w.slots| && w.slots[i].used && w.slots[i].external && w.slots[i].pidfd >= 0
    requires Alive(w, i) && !w.procs[w.slots[i].pid].exited && KnownAgent(w, w.slots[i].name)
    requires sp.Forked? && SpawnLegal(w, sp)
    ensures var steps := [Environment(Exits(w.slots[i].pid, e)), StartStep(w.slots[i].name, sp)];
      LegalRun(w, steps) && NamesFit(steps) && !NothingLeaked(Run(w, steps))
  {
    var s1, s2 := Environment(Exits(w.slots[i].pid, e)), StartStep(w.slots[i].name, sp);
    assert Describes(w.slots[i], w.procs, w.everPids);
    var w1 := Next(w, s1);
    assert FindByName(w1.slots, w.slots[i].name) == i;
    assert StartsOverPidfd(w1, s2);
    TwoStepLeak(w, s1, s2);
  }

  lemma TwoStepLeak(w: World, s1: Step, s2: Step)
    requires Core(w) && Ledger(w) && NothingLeaked(w)
    requires Legal(w, s1) && StepNameFits(s1) && !StartsOverPidfd(w, s1)
    requires Legal(Next(w, s1), s2) && StepNameFits(s2) && StartsOverPidfd(Next(w, s1), s2)
    ensures LegalRun(w, [s1, s2]) && !NothingLeaked(Run(w, [s1, s2]))
  {
    var w1 := Next(w, s1);
    StepKeeps(w, s1);
    StepLeaksIffStartOverPidfd(w, s1);
    StepLeaksIffStartOverPidfd(w1, s2);
    assert [s1, s2][1..] == [s2] && [s2][1..] == [];
    assert LegalRun(Next(w1, s2), []) && Run(Next(w1, s2), []) == Next(w1, s2);
    assert LegalRun(w1, [s2]) && Run(w1, [s2]) == Next(w1, s2);
  }
}
