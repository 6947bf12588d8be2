/** What stopping an agent does to its restart schedule. stop_agent polls with the reaper nested inside, so an
    exit it waits for goes through the same restart decision as any other. */
module SupervisorStops {
  import opened SupervisorModel
  import opened SupervisorSafety
  import opened SupervisorRuns

  // ----- the reaper nested in stop_agent --------------------------------

  /** The restart bookkeeping that only Decide writes. */
  predicate SameSchedule(s: Slot, s': Slot) {
    s'.nextRestartAt == s.nextRestartAt && s'.failures == s.failures && s'.restartCount == s.restartCount
  }

  predicate EnvLeavesUnwanted(e: Env, name: string) {
    e.Configure? && e.name == name ==> !(e.settings.enabled && e.settings.desired)
  }

  lemma ApplyAllUnwanted(w: World, es: seq<Env>, name: string)
    requires !WantsRunning(w.disk, name)
    requires forall l :: 0 <= l < |es| ==> EnvLeavesUnwanted(es[l], name)
    ensures !WantsRunning(ApplyAll(w, es).disk, name)
    decreases |es|
  {
    if es != [] { ApplyAllUnwanted(ApplyEnv(w, es[0]), es[1..], name); }
  }

  ghost predicate StillUnwanted(w: World, w': World, i: nat)
    requires i < |w.slots|
  {
    && |w'.slots| == |w.slots| && w'.slots[i].name == w.slots[i].name
    && SameSchedule(w.slots[i], w'.slots[i]) && !WantsRunning(w'.disk, w.slots[i].name)
  }

  lemma DecideOtherUnwanted(w: World, k: nat, e: Exit, uptime: int, failures: nat, name: string)
    requires k < |w.slots| && failures > 0 && !WantsRunning(w.disk, name)
    ensures !WantsRunning(Decide(w, k, e, uptime, failures).disk, name)
  {
  }

  lemma ReapOneUnwanted(w: World, i: nat)
    requires w.waitq != [] && i < |w.slots| && !WantsRunning(w.disk, w.slots[i].name)
    ensures StillUnwanted(w, ReapOne(w), i)
  {
    var z := w.waitq[0];
    var k := FindByPid(w.slots, z.pid);
    if k >= 0 {
      var w0 := w.(waitq := w.waitq[1..], procs := w.procs - {z.pid});
      var w1 := SetStatus(Clear(w0, k), w.slots[k].name, ExitStatus(z.exit));
      var u, f := Uptime(w.slots[k], w.now), FailuresAfter(w.slots[k], w.now);
      DecideFrame(w1, k, z.exit, u, f);
      DecideOtherUnwanted(w1, k, z.exit, u, f, w.slots[i].name);
    }
  }

  lemma ReapAllUnwanted(w: World, i: nat)
    requires i < |w.slots| && !WantsRunning(w.disk, w.slots[i].name)
    ensures StillUnwanted(w, ReapAll(w), i)
    decreases |w.waitq|
  {
    if w.waitq != [] { ReapOneQueue(w); ReapOneUnwanted(w, i); ReapAllUnwanted(ReapOne(w), i); }
  }

  /** Stopping an agent that is not wanted never schedules its restart, whatever exits meanwhile. */
  lemma {:induction false} StopNeverSchedules(w: World, i: nat, script: seq<seq<Env>>)
    requires i < |w.slots| && !WantsRunning(w.disk, w.slots[i].name)
    requires forall k, l :: 0 <= k < |script| && 0 <= l < |script[k]| ==>
      EnvLeavesUnwanted(script[k][l], w.slots[i].name)
    ensures var w' := StopAgent(w, i, script); |w'.slots| == |w.slots| && SameSchedule(w.slots[i], w'.slots[i])
    decreases |script|
  {
    if Alive(w, i) && script != [] {
      ApplyAllUnwanted(w, script[0], w.slots[i].name);
      ApplyAllSlots(w, script[0]);
      ReapAllUnwanted(ApplyAll(w, script[0]), i);
      var w1 := StopRound(w, script[0]);
      if Alive(w1, i) { StopNeverSchedules(w1, i, script[1..]); }
    }
  }

  /** The condition is needed: an operator who asks for the agent again between the SIGTERM and
      the exit gets a scheduled restart out of the same nested reap. */
  lemma StopSchedulesIfWantedAgain(w: World, i: nat, s: Settings, e: Exit)
    requires Core(w) && w.waitq == [] && i < |w.slots| && w.slots[i].used && Alive(w, i) && !w.slots[i].external
    requires !w.procs[w.slots[i].pid].exited
    requires s.enabled && s.desired && PolicyRestarts(s.policy, e)
    requires FailuresAfter(w.slots[i], w.now) < RESTART_BURST_LIMIT
    ensures var n := w.slots[i].name;
      var w' := StopAgent(w, i, [[Configure(n, s), Exits(w.slots[i].pid, e)]]);
      |w'.slots| == |w.slots| && w'.slots[i].pid == 0 && w'.slots[i].nextRestartAt > w'.now
  {
    var n, p := w.slots[i].name, w.slots[i].pid;
    var round := [Configure(n, s), Exits(p, e)];
    assert Describes(w.slots[i], w.procs, w.everPids);
    var w1 := ApplyEnv(w, round[0]);
    var w2 := ApplyEnv(w1, round[1]);
    assert round[1..] == [round[1]] && round[1..][1..] == [];
    assert ApplyAll(w2, []) == w2;
    assert ApplyAll(w1, [round[1]]) == w2;
    assert ApplyAll(w, round) == w2;
    assert w2.waitq == [Zombie(p, e)] && w2.slots == w.slots;
    EnvKeeps(w, round[0]);
    EnvKeeps(w1, round[1]);
    assert Holds(w2.slots[i], p);
    BackoffIsSmallPower(w2, i);
    Pow2Small(FailuresAfter(w.slots[i], w.now));
    ReapOneQueue(w2);
    var w3 := ReapOne(w2);
    assert ReapAll(w3) == w3;
    assert StopRound(w, round) == w3;
    var script := [round];
    assert script[1..] == [] && script[0] == round;
  }

  // ----- exactly when a stop schedules a restart ------------------------

  /** The restart decision on an exit of slot i's process, were it reaped now. */
  predicate RestartsOn(w: World, i: nat, e: Exit)
    requires i < |w.slots|
  {
    var n := w.slots[i].name;
    && WantsRunning(w.disk, n) && PolicyRestarts(Get(w.disk, n).policy, e)
    && FailuresAfter(w.slots[i], w.now) < RESTART_BURST_LIMIT
  }

  ghost predicate Queued(w: World, i: nat)
    requires i < |w.slots|
  {
    exists k :: 0 <= k < |w.waitq| && w.waitq[k].pid == w.slots[i].pid
  }

  /** The exit of slot i's process is waiting to be reaped, and calls for a restart. */
  ghost predicate ReapSchedules(w: World, i: nat)
    requires i < |w.slots|
  {
    exists k :: 0 <= k < |w.waitq| && w.waitq[k].pid == w.slots[i].pid && RestartsOn(w, i, w.waitq[k].exit)
  }

  /** In some round of the stop loop that is reached, the exit is reaped while it calls for a restart. */
  ghost predicate StopSchedules(w: World, i: nat, script: seq<seq<Env>>)
    requires i < |w.slots|
    decreases |script|
  {
    Alive(w, i) && script != [] &&
    (StopRoundSize(w, script[0]);
     ApplyAllSlots(w, script[0]);
     ReapSchedules(ApplyAll(w, script[0]), i) || StopSchedules(StopRound(w, script[0]), i, script[1..]))
  }

  /** Reaping the exit of another process changes nothing the decision on slot i looks at. */
  lemma ReapOneOther(w: World, i: nat)
    requires Core(w) && w.waitq != [] && i < |w.slots| && w.slots[i].used && w.slots[i].pid != w.waitq[0].pid
    ensures var w', n := ReapOne(w), w.slots[i].name;
      && |w'.slots| == |w.slots| && w'.slots[i] == w.slots[i] && w'.now == w.now
      && WantsRunning(w'.disk, n) == WantsRunning(w.disk, n) && Get(w'.disk, n).policy == Get(w.disk, n).policy
  {
    var z := w.waitq[0];
    var k := FindByPid(w.slots, z.pid);
    if k >= 0 {
      assert w.slots[k].name != w.slots[i].name;
      var w0 := w.(waitq := w.waitq[1..], procs := w.procs - {z.pid});
      var w1 := SetStatus(Clear(w0, k), w.slots[k].name, ExitStatus(z.exit));
      DecideFrame(w1, k, z.exit, Uptime(w.slots[k], w.now), FailuresAfter(w.slots[k], w.now));
    }
  }

  lemma ReapOneOwn(w: World, i: nat)
    requires Core(w) && w.waitq != [] && i < |w.slots| && Holds(w.slots[i], w.waitq[0].pid)
    ensures var w', s := ReapOne(w), w.slots[i];
      && |w'.slots| == |w.slots| && w'.slots[i].used && w'.slots[i].name == s.name && w'.slots[i].pid == 0
      && w'.now == w.now
      && (RestartsOn(w, i, w.waitq[0].exit) ==> w'.slots[i].nextRestartAt > w'.now)
      && (!RestartsOn(w, i, w.waitq[0].exit) ==> w'.slots[i].nextRestartAt in {s.nextRestartAt, 0})
  {
    assert Describes(w.slots[i], w.procs, w.everPids);
    Pow2Small(FailuresAfter(w.slots[i], w.now));
  }

  /** Reaping the whole queue treats slot i as reaping its own exit alone would. */
  lemma {:induction false} ReapAllSlot(w: World, i: nat)
    requires Core(w) && i < |w.slots| && w.slots[i].used
    ensures var w', s := ReapAll(w), w.slots[i];
      && |w'.slots| == |w.slots| && w'.slots[i].used && w'.slots[i].name == s.name && w'.now == w.now
      && (!Queued(w, i) ==> w'.slots[i] == s)
      && (Queued(w, i) ==> w'.slots[i].pid == 0)
      && (ReapSchedules(w, i) ==> w'.slots[i].nextRestartAt > w'.now)
      && (!ReapSchedules(w, i) ==> w'.slots[i].nextRestartAt in {s.nextRestartAt, 0})
    decreases |w.waitq|
  {
    if w.waitq != [] {
      var w1, q := ReapOne(w), w.waitq[1..];
      ReapOneQueue(w);
      ReapOneKeeps(w);
      assert w1.waitq == q && forall k :: 0 <= k < |q| ==> q[k] == w.waitq[k + 1];
      if w.slots[i].pid == w.waitq[0].pid {
        ReapOneOwn(w, i);
        assert forall k :: 0 <= k < |q| ==> q[k].pid in w1.everPids;
        assert !Queued(w1, i);
      } else {
        ReapOneOther(w, i);
        assert Queued(w, i) ==> Queued(w1, i) by {
          if k :| 0 <= k < |w.waitq| && w.waitq[k].pid == w.slots[i].pid { assert q[k - 1].pid == w1.slots[i].pid; }
        }
        assert ReapSchedules(w, i) ==> ReapSchedules(w1, i) by {
          if k :| 0 <= k < |w.waitq| && w.waitq[k].pid == w.slots[i].pid && RestartsOn(w, i, w.waitq[k].exit) {
            assert q[k - 1].pid == w1.slots[i].pid && RestartsOn(w1, i, q[k - 1].exit);
          }
        }
      }
      ReapAllSlot(w1, i);
    }
  }

  lemma {:induction false} StopSlot(w: World, i: nat, script: seq<seq<Env>>)
    requires Core(w) && i < |w.slots| && w.slots[i].used
    ensures var w', s := StopAgent(w, i, script), w.slots[i];
      && |w'.slots| == |w.slots| && w'.slots[i].used && w'.slots[i].name == s.name && w'.now >= w.now
      && (StopSchedules(w, i, script) ==> w'.slots[i].nextRestartAt > w'.now)
      && (!StopSchedules(w, i, script) ==> w'.slots[i].nextRestartAt in {s.nextRestartAt, 0})
    decreases |script|
  {
    if Alive(w, i) && script != [] {
      var w0, w1 := ApplyAll(w, script[0]), StopRound(w, script[0]);
      ApplyAllKeeps(w, script[0]);
      ApplyAllSlots(w, script[0]);
      ApplyAllCalm(w, script[0]);
      ReapAllKeeps(w0);
      ReapAllSlot(w0, i);
      assert StopAgent(w, i, script) == StopAgent(w1, i, script[1..]);
      StopSlot(w1, i, script[1..]);
    }
  }

  /** A slot that has a process has no restart scheduled. */
  predicate NoPending(slots: seq<Slot>) {
    forall i :: 0 <= i < |slots| && slots[i].used && slots[i].pid > 0 ==> slots[i].nextRestartAt == 0
  }

  /** Stopping a running agent leaves it scheduled for a restart exactly when its exit is reaped, in a round of the
      stop loop, while the agent is wanted, its policy asks for a restart and the burst limit is not reached. */
  lemma StopSchedulesExactly(w: World, i: nat, script: seq<seq<Env>>)
    requires Core(w) && NoPending(w.slots) && i < |w.slots| && w.slots[i].used && Alive(w, i)
    ensures var w' := StopAgent(w, i, script);
      |w'.slots| == |w.slots| && (w'.slots[i].nextRestartAt > w'.now <==> StopSchedules(w, i, script))
  {
    StopSlot(w, i, script);
  }

  /** The stop command leaves no schedule behind in any case: the slot itself is given up. */
  lemma StopCommandLeavesNoSlot(w: World, name: string, script: seq<seq<Env>>)
    requires Core(w) && KnownAgent(w, name)
    ensures FindByName(Stop(w, name, script).slots, name) < 0
  {
    var w1 := SetDesired(w, name, false);
    CoreFrame(w, w1);
    var i := FindByName(w1.slots, name);
    if i >= 0 {
      StopAgentKeeps(w1, i, script);
      StopSlot(w1, i, script);
    }
  }

  // ----- no restart is pending for a running agent ----------------------

  lemma ReapAllPending(w: World)
    requires NoPending(w.slots)
    ensures NoPending(ReapAll(w).slots)
    decreases |w.waitq|
  {
    if w.waitq != [] {
      ReapOneQueue(w);
      var z := w.waitq[0];
      var k := FindByPid(w.slots, z.pid);
      if k >= 0 {
        var w0 := w.(waitq := w.waitq[1..], procs := w.procs - {z.pid});
        var w1 := SetStatus(Clear(w0, k), w.slots[k].name, ExitStatus(z.exit));
        DecideFrame(w1, k, z.exit, Uptime(w.slots[k], w.now), FailuresAfter(w.slots[k], w.now));
      }
      ReapAllPending(ReapOne(w));
    }
  }

  lemma StopAgentPending(w: World, i: nat, script: seq<seq<Env>>)
    requires NoPending(w.slots) && i < |w.slots|
    ensures var w' := StopAgent(w, i, script); |w'.slots| == |w.slots| && NoPending(w'.slots)
    decreases |script|
  {
    if Alive(w, i) && script != [] {
      ApplyAllSlots(w, script[0]);
      ReapAllPending(ApplyAll(w, script[0]));
      StopRoundSize(w, script[0]);
      var w1 := StopRound(w, script[0]);
      assert StopAgent(w, i, script) == StopAgent(w1, i, script[1..]);
      StopAgentPending(w1, i, script[1..]);
    }
  }

  lemma AfterExternalPending(w: World, name: string)
    requires NoPending(w.slots)
    ensures NoPending(AfterExternal(w, name).slots)
  {
  }

  lemma ReconcileStartPending(w: World, name: string, sp: Spawn)
    requires NoPending(w.slots)
    requires FindByName(w.slots, name) >= 0 ==> w.slots[FindByName(w.slots, name)].pid == 0
    ensures NoPending(ReconcileStart(w, name, sp).slots)
  {
    assert NoPending(Alloc(w, name).slots);
  }

  lemma StartPending(w: World, name: string, sp: Spawn)
    requires NoPending(w.slots)
    ensures NoPending(Start(w, name, sp).slots)
  {
    if KnownAgent(w, name) { assert NoPending(Alloc(StartSettings(w, name), name).slots); }
  }

  lemma StopPending(w: World, name: string, script: seq<seq<Env>>)
    requires NoPending(w.slots)
    ensures NoPending(Stop(w, name, script).slots)
  {
    var w1 := SetDesired(w, name, false);
    var i := FindByName(w1.slots, name);
    if KnownAgent(w, name) && i >= 0 { StopAgentPending(w1, i, script); }
  }

  lemma ReconcilePending(w: World, name: string, sp: Spawn, script: seq<seq<Env>>)
    requires Core(w) && NoPending(w.slots)
    ensures NoPending(Reconcile(w, name, sp, script).slots)
  {
    AfterExternalPending(w, name);
    var w1 := AfterExternal(w, name);
    var i := FindByName(w1.slots, name);
    var alive := i >= 0 && Alive(w1, i);
    if WantsRunning(w.disk, name) && !alive {
      NotAliveAfterExternal(w, name);
      ReconcileStartPending(w1, name, sp);
    } else if alive && !WantsRunning(w.disk, name) {
      StopAgentPending(w1, i, script);
    }
  }

  lemma StepPending(w: World, s: Step)
    requires Core(w) && NoPending(w.slots)
    ensures NoPending(Next(w, s).slots)
  {
    match s
    case Environment(e) =>
    case ReapStep => ReapAllPending(w);
    case ReconcileStep(name, sp, script) => ReconcilePending(w, name, sp, script);
    case SweepStep(i) =>
    case ForgetStep(name) =>
    case StartStep(name, sp) => StartPending(w, name, sp);
    case StopStep(name, script) => StopPending(w, name, script);
    case RestartStep(name, sp, script) => StopPending(w, name, script); StartPending(Stop(w, name, script), name, sp);
  }

  lemma {:induction false} RunPending(w: World, steps: seq<Step>)
    requires Core(w) && NoPending(w.slots) && LegalRun(w, steps) && NamesFit(steps)
    ensures NoPending(Run(w, steps).slots)
    decreases |steps|
  {
    if steps != [] {
      StepKeeps(w, steps[0]);
      StepPending(w, steps[0]);
      RunPending(Next(w, steps[0]), steps[1..]);
    }
  }
}
