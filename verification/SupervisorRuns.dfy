/** Who may spawn, when a stopped agent stays stopped, and how long a restart waits. */
module SupervisorRuns {
  import opened SupervisorModel
  import opened SupervisorSafety
  import opened SupervisorRestart

  // ----- which steps create processes -----------------------------------

  /** No process appears and no pid is used up; time does not run backwards. */
  ghost predicate Calm(w: World, w': World) {
    && w.now <= w'.now && w'.everPids == w.everPids
    && forall p :: p in w'.procs ==> p in w.procs && w'.procs[p].agent == w.procs[p].agent
  }

  /** Nothing that has gone comes back, and a process keeps its agent. */
  ghost predicate Evolves(w: World, w': World) {
    && w.now <= w'.now && w.everPids <= w'.everPids
    && forall p :: p in w'.procs && p in w.everPids ==> p in w.procs && w'.procs[p].agent == w.procs[p].agent
  }

  /** A process that `w'` has and `w` had not is the runtime of an agent wanted in `w'`. */
  ghost predicate SpawnsWanted(w: World, w': World) {
    forall p :: p in w'.procs && p !in w.procs ==> WantsRunning(w'.disk, w'.procs[p].agent)
  }

  lemma ApplyAllCalm(w: World, es: seq<Env>)
    ensures Calm(w, ApplyAll(w, es))
    decreases |es|
  {
    if es != [] { ApplyAllCalm(ApplyEnv(w, es[0]), es[1..]); }
  }

  lemma ReapOneCalm(w: World)
    requires w.waitq != []
    ensures Calm(w, ReapOne(w)) && ReapOne(w).now == w.now
  {
    var z := w.waitq[0];
    var i := FindByPid(w.slots, z.pid);
    if i >= 0 {
      var w0 := w.(waitq := w.waitq[1..], procs := w.procs - {z.pid});
      var w1 := SetStatus(Clear(w0, i), w.slots[i].name, ExitStatus(z.exit));
      DecideFrame(w1, i, z.exit, Uptime(w.slots[i], w.now), FailuresAfter(w.slots[i], w.now));
    }
  }

  lemma ReapAllCalm(w: World)
    ensures Calm(w, ReapAll(w)) && ReapAll(w).now == w.now
    decreases |w.waitq|
  {
    if w.waitq != [] { ReapOneQueue(w); ReapOneCalm(w); ReapAllCalm(ReapOne(w)); }
  }

  lemma StopLoopCalm(w: World, i: nat, script: seq<seq<Env>>)
    requires i < |w.slots|
    ensures Calm(w, StopLoop(w, i, script))
    decreases |script|
  {
    if script != [] {
      ApplyAllCalm(w, script[0]);
      ReapAllCalm(ApplyAll(w, script[0]));
      StopRoundSize(w, script[0]);
      var w1 := StopRound(w, script[0]);
      if Alive(w1, i) { StopLoopCalm(w1, i, script[1..]); }
    }
  }

  lemma StopCalm(w: World, name: string, script: seq<seq<Env>>)
    ensures Calm(w, Stop(w, name, script))
  {
    if KnownAgent(w, name) {
      var w1 := SetDesired(w, name, false);
      var i := FindByName(w1.slots, name);
      if i >= 0 { StopLoopCalm(w1, i, script); StopLoopSize(w1, i, script); }
    }
  }

  lemma SpawnEvolves(w: World, i: nat, sp: Spawn)
    requires i < |w.slots| && SpawnLegal(w, sp) && WantsRunning(w.disk, w.slots[i].name)
    ensures var w' := DoSpawn(w, i, sp); Evolves(w, w') && SpawnsWanted(w, w')
  {
  }

  lemma ReconcileStartEvolves(w: World, name: string, sp: Spawn)
    requires Core(w) && |name| <= SLOT_NAME_MAX && SpawnLegal(w, sp) && WantsRunning(w.disk, name)
    ensures var w' := ReconcileStart(w, name, sp); Evolves(w, w') && SpawnsWanted(w, w')
  {
    AllocKeeps(w, name);
    var k, w2 := AllocIndex(w.slots, name), Alloc(w, name);
    if k >= 0 { SpawnEvolves(w2, k, sp); }
  }

  lemma ReconcileEvolves(w: World, name: string, sp: Spawn, script: seq<seq<Env>>)
    requires Core(w) && |name| <= SLOT_NAME_MAX && SpawnLegal(AfterExternal(w, name), sp)
    ensures var w' := Reconcile(w, name, sp, script); Evolves(w, w') && SpawnsWanted(w, w')
  {
    var w1 := AfterExternal(w, name);
    AfterExternalKeeps(w, name);
    var i := FindByName(w1.slots, name);
    var alive := i >= 0 && Alive(w1, i);
    assert WantsRunning(w1.disk, name) == WantsRunning(w.disk, name) && w1.now == w.now;
    if WantsRunning(w.disk, name) && !alive {
      ReconcileStartEvolves(w1, name, sp);
    } else if alive && !WantsRunning(w.disk, name) {
      StopLoopCalm(w1, i, script);
    }
  }

  lemma StartEvolves(w: World, name: string, sp: Spawn)
    requires Core(w) && |name| <= SLOT_NAME_MAX && SpawnLegal(w, sp)
    ensures var w' := Start(w, name, sp); Evolves(w, w') && SpawnsWanted(w, w')
  {
    if KnownAgent(w, name) {
      var w1 := StartSettings(w, name);
      StartSettingsWant(w, name);
      CoreFrame(w, w1);
      AllocKeeps(w1, name);
      var i, w2 := AllocIndex(w1.slots, name), Alloc(w1, name);
      if i >= 0 { SpawnEvolves(ClearBackoff(w2, i), i, sp); }
    }
  }

  /** Every spawn, on every path, happens with enabled=yes and desired_state=running. */
  lemma SpawnsAreWanted(w: World, s: Step)
    requires Core(w) && Legal(w, s) && StepNameFits(s)
    ensures Evolves(w, Next(w, s)) && SpawnsWanted(w, Next(w, s))
  {
    match s
    case Environment(e) => ApplyAllCalm(w, [e]); assert ApplyAll(w, [e]) == ApplyEnv(w, e);
    case ReapStep => ReapAllCalm(w);
    case ReconcileStep(name, sp, script) => ReconcileEvolves(w, name, sp, script);
    case SweepStep(i) =>
    case ForgetStep(name) =>
    case StartStep(name, sp) => StartEvolves(w, name, sp);
    case StopStep(name, script) => StopCalm(w, name, script);
    case RestartStep(name, sp, script) =>
      StopCalm(w, name, script);
      StopKeeps(w, name, script);
      StartEvolves(Stop(w, name, script), name, sp);
  }

  lemma {:induction false} RunEvolves(w: World, steps: seq<Step>)
    requires Core(w) && LegalRun(w, steps) && NamesFit(steps)
    ensures Evolves(w, Run(w, steps))
    decreases |steps|
  {
    if steps != [] {
      StepKeeps(w, steps[0]);
      SpawnsAreWanted(w, steps[0]);
      RunEvolves(Next(w, steps[0]), steps[1..]);
    }
  }

  // ----- a stopped agent stays stopped ----------------------------------

  predicate EnvLeavesStopped(e: Env, name: string) {
    e.Configure? && e.name == name ==> !e.settings.desired
  }

  predicate ScriptLeavesStopped(script: seq<seq<Env>>, name: string) {
    forall k, l :: 0 <= k < |script| && 0 <= l < |script[k]| ==> EnvLeavesStopped(script[k][l], name)
  }

  /** Nobody sets desired_state=running for `name` in this step. */
  predicate StepLeavesStopped(s: Step, name: string) {
    match s
    case Environment(e) => EnvLeavesStopped(e, name)
    case ReconcileStep(_, _, script) => ScriptLeavesStopped(script, name)
    case StartStep(n, _) => n != name
    case StopStep(_, script) => ScriptLeavesStopped(script, name)
    case RestartStep(n, _, script) => n != name && ScriptLeavesStopped(script, name)
    case _ => true
  }

  lemma ApplyAllStopped(w: World, es: seq<Env>, name: string)
    requires !Get(w.disk, name).desired
    requires forall l :: 0 <= l < |es| ==> EnvLeavesStopped(es[l], name)
    ensures !Get(ApplyAll(w, es).disk, name).desired
    decreases |es|
  {
    if es != [] { ApplyAllStopped(ApplyEnv(w, es[0]), es[1..], name); }
  }

  lemma ReapAllStopped(w: World, name: string)
    requires !Get(w.disk, name).desired
    ensures !Get(ReapAll(w).disk, name).desired
    decreases |w.waitq|
  {
    if w.waitq != [] { ReapOneQueue(w); ReapAllStopped(ReapOne(w), name); }
  }

  lemma StopLoopStopped(w: World, i: nat, script: seq<seq<Env>>, name: string)
    requires i < |w.slots| && !Get(w.disk, name).desired && ScriptLeavesStopped(script, name)
    ensures !Get(StopLoop(w, i, script).disk, name).desired
    decreases |script|
  {
    if script != [] {
      ApplyAllStopped(w, script[0], name);
      ReapAllStopped(ApplyAll(w, script[0]), name);
      StopRoundSize(w, script[0]);
      var w1 := StopRound(w, script[0]);
      if Alive(w1, i) { StopLoopStopped(w1, i, script[1..], name); }
    }
  }

  lemma StopStopped(w: World, n: string, script: seq<seq<Env>>, name: string)
    requires !Get(w.disk, name).desired && ScriptLeavesStopped(script, name)
    ensures !Get(Stop(w, n, script).disk, name).desired
  {
    if KnownAgent(w, n) {
      var w1 := SetDesired(w, n, false);
      var i := FindByName(w1.slots, n);
      if i >= 0 { StopLoopStopped(w1, i, script, name); StopLoopSize(w1, i, script); }
    }
  }

  lemma StartOtherStopped(w: World, n: string, sp: Spawn, name: string)
    requires !Get(w.disk, name).desired && n != name
    ensures !Get(Start(w, n, sp).disk, name).desired
  {
    if KnownAgent(w, n) { StartSettingsWant(w, n); }
  }

  lemma ReconcileStopped(w: World, n: string, sp: Spawn, script: seq<seq<Env>>, name: string)
    requires !Get(w.disk, name).desired && ScriptLeavesStopped(script, name)
    ensures !Get(Reconcile(w, n, sp, script).disk, name).desired
  {
    var w1 := AfterExternal(w, n);
    var i := FindByName(w1.slots, n);
    assert !Get(w1.disk, name).desired;
    if WantsRunning(w.disk, n) && !(i >= 0 && Alive(w1, i)) {
      assert Alloc(w1, n).disk == w1.disk;
    } else if i >= 0 && Alive(w1, i) && !WantsRunning(w.disk, n) {
      StopLoopStopped(w1, i, script, name);
    }
  }

  lemma StepStopped(w: World, s: Step, name: string)
    requires !Get(w.disk, name).desired && StepLeavesStopped(s, name)
    ensures !Get(Next(w, s).disk, name).desired
  {
    match s
    case Environment(e) =>
    case ReapStep => ReapAllStopped(w, name);
    case ReconcileStep(n, sp, script) => ReconcileStopped(w, n, sp, script, name);
    case SweepStep(i) =>
    case ForgetStep(n) =>
    case StartStep(n, sp) => StartOtherStopped(w, n, sp, name);
    case StopStep(n, script) => StopStopped(w, n, script, name);
    case RestartStep(n, sp, script) =>
      StopStopped(w, n, script, name);
      StartOtherStopped(Stop(w, n, script), n, sp, name);
  }

  /** Once desired_state is stopped, whatever stopped it, no run that nobody sets it to running
      in ever creates a process for the agent. */
  lemma {:induction false} StoppedIsFinal(w: World, steps: seq<Step>, name: string)
    requires Core(w) && LegalRun(w, steps) && NamesFit(steps)
    requires !Get(w.disk, name).desired
    requires forall k :: 0 <= k < |steps| ==> StepLeavesStopped(steps[k], name)
    ensures forall p :: p in Run(w, steps).procs && Run(w, steps).procs[p].agent == name ==> p in w.procs
    decreases |steps|
  {
    if steps != [] {
      var w1 := Next(w, steps[0]);
      StepKeeps(w, steps[0]);
      StepStopped(w, steps[0], name);
      SpawnsAreWanted(w, steps[0]);
      StoppedIsFinal(w1, steps[1..], name);
      RunEvolves(w1, steps[1..]);
    }
  }

  /** A policy-declined exit and a crash-loop exit both leave desired_state=stopped, and so are final. */
  lemma DeclinedOrSuppressedIsFinal(w: World, i: nat, steps: seq<Step>)
    requires Core(w) && w.waitq != [] && i < |w.slots| && Holds(w.slots[i], w.waitq[0].pid)
    requires var s, e := w.slots[i], w.waitq[0].exit;
      !PolicyRestarts(Get(w.disk, s.name).policy, e) || FailuresAfter(s, w.now) >= RESTART_BURST_LIMIT
    requires WantsRunning(w.disk, w.slots[i].name)
    requires var w1 := ReapOne(w);
      && LegalRun(w1, steps) && NamesFit(steps)
      && forall k :: 0 <= k < |steps| ==> StepLeavesStopped(steps[k], w.slots[i].name)
    ensures var n, w' := w.slots[i].name, Run(ReapOne(w), steps);
      && !Get(ReapOne(w).disk, n).desired
      && forall p :: p in w'.procs && w'.procs[p].agent == n ==> p in ReapOne(w).procs
  {
    assert Describes(w.slots[i], w.procs, w.everPids);
    ReapOneKeeps(w);
    StoppedIsFinal(ReapOne(w), steps, w.slots[i].name);
  }

  // ----- backoff --------------------------------------------------------

  /** The restarts a reaped exit schedules: never before one second, at most eight after. */
  lemma BackoffIsSmallPower(w: World, i: nat)
    requires Core(w) && w.waitq != [] && i < |w.slots| && Holds(w.slots[i], w.waitq[0].pid)
    requires WantsRunning(w.disk, w.slots[i].name)
    requires PolicyRestarts(Get(w.disk, w.slots[i].name).policy, w.waitq[0].exit)
    ensures var s, k := w.slots[i], FailuresAfter(w.slots[i], w.now);
      var s' := ReapOne(w).slots[i];
      && s'.used && s'.name == s.name && s'.pid == 0 && s'.failures == k
      && (k < RESTART_BURST_LIMIT ==> 1 <= k <= 4 && s'.nextRestartAt == w.now + Pow2(k - 1))
      && (k >= RESTART_BURST_LIMIT ==>
            && s'.nextRestartAt == 0
            && Get(ReapOne(w).disk, s.name).status == CrashLoop && !Get(ReapOne(w).disk, s.name).desired)
  {
    assert Describes(w.slots[i], w.procs, w.everPids);
    assert w.slots[i].name in w.disk;
    Pow2Small(FailuresAfter(w.slots[i], w.now));
  }

  lemma Pow2Small(k: nat)
    requires k > 0
    ensures k < RESTART_BURST_LIMIT ==> BackoffDelay(k) == Pow2(k - 1) && Pow2(k - 1) in {1, 2, 4, 8}
  {
    if k == 1 { } else if k == 2 { assert Pow2(1) == 2; }
    else if k == 3 { assert Pow2(1) == 2; assert Pow2(2) == 4; }
    else if k == 4 { assert Pow2(1) == 2; assert Pow2(2) == 4; assert Pow2(3) == 8; }
  }

  /** The operator leaves the agent alone: no command names it, its directory stays. */
  predicate StepIsAutomatic(s: Step, name: string) {
    match s
    case ForgetStep(n) => n != name
    case StartStep(n, _) => n != name
    case StopStep(n, _) => n != name
    case RestartStep(n, _, _) => n != name
    case _ => true
  }

  /** Slot i belongs to `name`, has no process, and may not be respawned before `due`. */
  predicate Waiting(w: World, i: nat, name: string, due: nat) {
    && i < |w.slots| && w.slots[i].used && w.slots[i].name == name
    && w.slots[i].pid == 0 && w.slots[i].nextRestartAt >= due
  }

  lemma ReapAllWaiting(w: World, i: nat, name: string, due: nat)
    requires Core(w) && Waiting(w, i, name, due)
    ensures Waiting(ReapAll(w), i, name, due) && ReapAll(w).now == w.now
    decreases |w.waitq|
  {
    if w.waitq != [] {
      ReapOneQueue(w);
      ReapOneKeeps(w);
      var z := w.waitq[0];
      var k := FindByPid(w.slots, z.pid);
      if k >= 0 {
        assert k != i;
        var w0 := w.(waitq := w.waitq[1..], procs := w.procs - {z.pid});
        var w1 := SetStatus(Clear(w0, k), w.slots[k].name, ExitStatus(z.exit));
        DecideFrame(w1, k, z.exit, Uptime(w.slots[k], w.now), FailuresAfter(w.slots[k], w.now));
      }
      ReapAllWaiting(ReapOne(w), i, name, due);
    }
  }

  lemma StopLoopWaiting(w: World, k: nat, script: seq<seq<Env>>, i: nat, name: string, due: nat)
    requires Core(w) && Waiting(w, i, name, due) && k < |w.slots| && k != i
    ensures Waiting(StopLoop(w, k, script), i, name, due) && StopLoop(w, k, script).now >= w.now
    decreases |script|
  {
    if script != [] {
      ApplyAllKeeps(w, script[0]);
      ApplyAllSlots(w, script[0]);
      ApplyAllCalm(w, script[0]);
      ReapAllKeeps(ApplyAll(w, script[0]));
      ReapAllWaiting(ApplyAll(w, script[0]), i, name, due);
      StopRoundSize(w, script[0]);
      var w1 := StopRound(w, script[0]);
      if Alive(w1, k) { StopLoopWaiting(w1, k, script[1..], i, name, due); }
    }
  }

  lemma ReconcileStartWaiting(w: World, n: string, sp: Spawn, i: nat, name: string, due: nat)
    requires Core(w) && |n| <= SLOT_NAME_MAX && Waiting(w, i, name, due)
    ensures var w' := ReconcileStart(w, n, sp); w'.now == w.now && (w'.now < due ==> Waiting(w', i, name, due))
  {
    AllocKeeps(w, n);
    assert Waiting(Alloc(w, n), i, name, due);
  }

  lemma ReconcileWaiting(w: World, n: string, sp: Spawn, script: seq<seq<Env>>, i: nat, name: string, due: nat)
    requires Core(w) && |n| <= SLOT_NAME_MAX && Waiting(w, i, name, due)
    ensures var w' := Reconcile(w, n, sp, script); w'.now >= w.now && (w'.now < due ==> Waiting(w', i, name, due))
  {
    var w1 := AfterExternal(w, n);
    AfterExternalKeeps(w, n);
    assert Waiting(w1, i, name, due) && w1.now == w.now;
    var k := FindByName(w1.slots, n);
    var alive := k >= 0 && Alive(w1, k);
    if WantsRunning(w.disk, n) && !alive {
      ReconcileStartWaiting(w1, n, sp, i, name, due);
    } else if alive && !WantsRunning(w.disk, n) {
      StopLoopWaiting(w1, k, script, i, name, due);
    }
  }

  lemma StartOtherWaiting(w: World, n: string, sp: Spawn, i: nat, name: string, due: nat)
    requires Core(w) && |n| <= SLOT_NAME_MAX && Waiting(w, i, name, due) && n != name
    ensures Waiting(Start(w, n, sp), i, name, due) && Start(w, n, sp).now == w.now
  {
    if KnownAgent(w, n) {
      var w1 := StartSettings(w, n);
      CoreFrame(w, w1);
      AllocKeeps(w1, n);
      assert Waiting(Alloc(w1, n), i, name, due);
    }
  }

  lemma StopOtherWaiting(w: World, n: string, script: seq<seq<Env>>, i: nat, name: string, due: nat)
    requires Core(w) && Waiting(w, i, name, due) && n != name
    ensures Waiting(Stop(w, n, script), i, name, due) && Stop(w, n, script).now >= w.now
  {
    if KnownAgent(w, n) {
      var w1 := SetDesired(w, n, false);
      CoreFrame(w, w1);
      var k := FindByName(w1.slots, n);
      if k >= 0 { StopLoopWaiting(w1, k, script, i, name, due); StopLoopSize(w1, k, script); }
    }
  }

  lemma StepWaiting(w: World, s: Step, i: nat, name: string, due: nat)
    requires Core(w) && Legal(w, s) && StepNameFits(s) && StepIsAutomatic(s, name) && Waiting(w, i, name, due)
    ensures Next(w, s).now >= w.now && (Next(w, s).now < due ==> Waiting(Next(w, s), i, name, due))
  {
    match s
    case Environment(e) =>
    case ReapStep => ReapAllWaiting(w, i, name, due);
    case ReconcileStep(n, sp, script) => ReconcileWaiting(w, n, sp, script, i, name, due);
    case SweepStep(k) =>
    case ForgetStep(n) =>
    case StartStep(n, sp) => StartOtherWaiting(w, n, sp, i, name, due);
    case StopStep(n, script) => StopOtherWaiting(w, n, script, i, name, due);
    case RestartStep(n, sp, script) =>
      StopOtherWaiting(w, n, script, i, name, due);
      StopKeeps(w, n, script);
      StartOtherWaiting(Stop(w, n, script), n, sp, i, name, due);
  }

  lemma {:induction false} RunWaiting(w: World, steps: seq<Step>, i: nat, name: string, due: nat)
    requires Core(w) && LegalRun(w, steps) && NamesFit(steps) && Waiting(w, i, name, due)
    requires forall k :: 0 <= k < |steps| ==> StepIsAutomatic(steps[k], name)
    ensures Run(w, steps).now >= w.now
    ensures Run(w, steps).now < due ==> Waiting(Run(w, steps), i, name, due)
    decreases |steps|
  {
    if steps != [] {
      StepKeeps(w, steps[0]);
      StepWaiting(w, steps[0], i, name, due);
      var w1 := Next(w, steps[0]);
      if Waiting(w1, i, name, due) {
        RunWaiting(w1, steps[1..], i, name, due);
      } else {
        RunEvolves(w1, steps[1..]);
      }
    }
  }

  /** After an exit that schedules restart number k, and for as long as the operator leaves the
      agent alone, its slot stays without a process until 2^(k-1) seconds have passed. */
  lemma NoRespawnBeforeBackoff(w: World, i: nat, steps: seq<Step>)
    requires Core(w) && w.waitq != [] && i < |w.slots| && Holds(w.slots[i], w.waitq[0].pid)
    requires WantsRunning(w.disk, w.slots[i].name)
    requires PolicyRestarts(Get(w.disk, w.slots[i].name).policy, w.waitq[0].exit)
    requires FailuresAfter(w.slots[i], w.now) < RESTART_BURST_LIMIT
    requires LegalRun(ReapOne(w), steps) && NamesFit(steps)
    requires forall k :: 0 <= k < |steps| ==> StepIsAutomatic(steps[k], w.slots[i].name)
    ensures var k, w' := FailuresAfter(w.slots[i], w.now), Run(ReapOne(w), steps);
      w'.now < w.now + Pow2(k - 1) ==> Waiting(w', i, w.slots[i].name, w.now + Pow2(k - 1))
  {
    BackoffIsSmallPower(w, i);
    ReapOneKeeps(w);
    RunWaiting(ReapOne(w), steps, i, w.slots[i].name, w.now + Pow2(FailuresAfter(w.slots[i], w.now) - 1));
  }
}
