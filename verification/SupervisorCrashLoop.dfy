/** The crash-loop mark: written by the exit that reaches the burst limit, and kept by everything the supervisor does
    until somebody else touches the agent. */
module SupervisorCrashLoop {
  import opened AgentNames
  import opened SupervisorModel
  import opened SupervisorSafety
  import opened SupervisorRuns
  import opened SupervisorDescriptors

  predicate EnvSpares(e: Env, name: string) {
    match e
    case Configure(n, _) => n != name
    case RemoveDir(n) => n != name
    case _ => true
  }

  predicate ScriptSpares(script: seq<seq<Env>>, name: string) {
    forall k, l :: 0 <= k < |script| && 0 <= l < |script[k]| ==> EnvSpares(script[k][l], name)
  }

  /** Nobody edits the files of `name` or starts it in this step. */
  predicate StepSpares(s: Step, name: string) {
    match s
    case Environment(e) => EnvSpares(e, name)
    case ReconcileStep(_, _, script) => ScriptSpares(script, name)
    case StartStep(n, _) => n != name
    case StopStep(_, script) => ScriptSpares(script, name)
    case RestartStep(n, _, script) => n != name && ScriptSpares(script, name)
    case _ => true
  }

  /** The files of `name` say crash-loop and stopped, and no slot of that name has a process. */
  ghost predicate Marked(w: World, name: string) {
    && Get(w.disk, name).status == CrashLoop && !Get(w.disk, name).desired
    && (forall j :: 0 <= j < |w.slots| && Named(w.slots[j], name) ==> w.slots[j].pid == 0 && !w.slots[j].external)
    && (forall j :: 0 <= j < |w.slots| && !w.slots[j].used ==> !w.slots[j].external)
  }

  lemma ApplyAllMarked(w: World, es: seq<Env>, name: string)
    requires Marked(w, name) && forall l :: 0 <= l < |es| ==> EnvSpares(es[l], name)
    ensures Marked(ApplyAll(w, es), name)
    decreases |es|
  {
    if es != [] { ApplyAllMarked(ApplyEnv(w, es[0]), es[1..], name); }
  }

  lemma ReapAllMarked(w: World, name: string)
    requires Marked(w, name)
    ensures Marked(ReapAll(w), name)
    decreases |w.waitq|
  {
    if w.waitq != [] {
      ReapOneQueue(w);
      var z := w.waitq[0];
      var k := FindByPid(w.slots, z.pid);
      if k >= 0 {
        assert !Named(w.slots[k], name);
        var w0 := w.(waitq := w.waitq[1..], procs := w.procs - {z.pid});
        var w1 := SetStatus(Clear(w0, k), w.slots[k].name, ExitStatus(z.exit));
        DecideFrame(w1, k, z.exit, Uptime(w.slots[k], w.now), FailuresAfter(w.slots[k], w.now));
      }
      ReapAllMarked(ReapOne(w), name);
    }
  }

  lemma StopAgentMarked(w: World, i: nat, script: seq<seq<Env>>, name: string)
    requires i < |w.slots| && Marked(w, name) && ScriptSpares(script, name)
    ensures var w' := StopAgent(w, i, script); |w'.slots| == |w.slots| && Marked(w', name)
    decreases |script|
  {
    if Alive(w, i) && script != [] {
      ApplyAllMarked(w, script[0], name);
      ReapAllMarked(ApplyAll(w, script[0]), name);
      StopRoundSize(w, script[0]);
      var w1 := StopRound(w, script[0]);
      assert StopAgent(w, i, script) == StopAgent(w1, i, script[1..]);
      StopAgentMarked(w1, i, script[1..], name);
    }
  }

  lemma StopMarked(w: World, n: string, script: seq<seq<Env>>, name: string)
    requires Marked(w, name) && ScriptSpares(script, name)
    ensures Marked(Stop(w, n, script), name)
  {
    var w1 := SetDesired(w, n, false);
    var i := FindByName(w1.slots, n);
    if KnownAgent(w, n) && i >= 0 { StopAgentMarked(w1, i, script, name); }
  }

  /** What is done to a slot of another agent, or to a new one. */
  lemma OtherSlotMarked(w: World, n: string, name: string)
    requires Marked(w, name) && n != name && |n| <= SLOT_NAME_MAX
    ensures var i, w1 := AllocIndex(w.slots, n), Alloc(w, n);
      Marked(w1, name) && (i >= 0 ==> i < |w1.slots| && w1.slots[i].name == n)
  {
  }

  lemma StartMarked(w: World, n: string, sp: Spawn, name: string)
    requires Marked(w, name) && n != name && |n| <= SLOT_NAME_MAX
    ensures Marked(Start(w, n, sp), name)
  {
    hide ValidName;
    if KnownAgent(w, n) { OtherSlotMarked(StartSettings(w, n), n, name); }
  }

  lemma AfterExternalMarked(w: World, n: string, name: string)
    requires Marked(w, name)
    ensures Marked(AfterExternal(w, n), name)
  {
    var i := FindByName(w.slots, n);
    if i >= 0 && ExternalGone(w, i) { assert Named(w.slots[i], n); }
  }

  lemma ReconcileMarked(w: World, n: string, sp: Spawn, script: seq<seq<Env>>, name: string)
    requires Marked(w, name) && |n| <= SLOT_NAME_MAX && ScriptSpares(script, name)
    ensures Marked(Reconcile(w, n, sp, script), name)
  {
    AfterExternalMarked(w, n, name);
    var w1 := AfterExternal(w, n);
    var i := FindByName(w1.slots, n);
    var alive := i >= 0 && Alive(w1, i);
    if WantsRunning(w.disk, n) && !alive {
      OtherSlotMarked(w1, n, name);
    } else if alive && !WantsRunning(w.disk, n) {
      StopAgentMarked(w1, i, script, name);
    }
  }

  lemma StepMarked(w: World, s: Step, name: string)
    requires Marked(w, name) && StepNameFits(s) && StepSpares(s, name)
    ensures Marked(Next(w, s), name)
  {
    match s
    case Environment(e) =>
    case ReapStep => ReapAllMarked(w, name);
    case ReconcileStep(n, sp, script) => ReconcileMarked(w, n, sp, script, name);
    case SweepStep(i) => if i < |w.slots| { assert w.slots[i].external ==> !Named(w.slots[i], name); }
    case ForgetStep(n) =>
    case StartStep(n, sp) => StartMarked(w, n, sp, name);
    case StopStep(n, script) => StopMarked(w, n, script, name);
    case RestartStep(n, sp, script) => StopMarked(w, n, script, name); StartMarked(Stop(w, n, script), n, sp, name);
  }

  lemma {:induction false} RunMarked(w: World, steps: seq<Step>, name: string)
    requires Marked(w, name) && NamesFit(steps)
    requires forall k :: 0 <= k < |steps| ==> StepSpares(steps[k], name)
    ensures Marked(Run(w, steps), name)
    decreases |steps|
  {
    if steps != [] {
      StepMarked(w, steps[0], name);
      RunMarked(Next(w, steps[0]), steps[1..], name);
    }
  }

  lemma OwnChild(w: World, i: nat)
    requires Core(w) && Ledger(w) && w.waitq != [] && i < |w.slots| && Holds(w.slots[i], w.waitq[0].pid)
    ensures !w.slots[i].external && FindByPid(w.slots, w.waitq[0].pid) == i && NamesDistinct(w.slots)
    ensures forall j :: 0 <= j < |w.slots| && !w.slots[j].used ==> !w.slots[j].external
  {
    assert Describes(w.slots[i], w.procs, w.everPids);
  }

  lemma SuppressedIsMarked(w: World, i: nat)
    requires Core(w) && Ledger(w) && w.waitq != [] && i < |w.slots| && Holds(w.slots[i], w.waitq[0].pid)
    requires WantsRunning(w.disk, w.slots[i].name)
    requires PolicyRestarts(Get(w.disk, w.slots[i].name).policy, w.waitq[0].exit)
    requires FailuresAfter(w.slots[i], w.now) >= RESTART_BURST_LIMIT
    ensures Marked(ReapOne(w), w.slots[i].name)
  {
    hide Ledger, Core;
    var z, s := w.waitq[0], w.slots[i];
    OwnChild(w, i);
    BackoffIsSmallPower(w, i);
    var w1 := SetStatus(Clear(w.(waitq := w.waitq[1..], procs := w.procs - {z.pid}), i), s.name, ExitStatus(z.exit));
    DecideFrame(w1, i, z.exit, Uptime(s, w.now), FailuresAfter(s, w.now));
  }

  /** The fifth failure in a row marks the agent crash-loop and stopped, and in every later run in which nobody edits
      its files or starts it, it stays so marked and without a process. */
  lemma CrashLoopStaysMarked(w: World, i: nat, steps: seq<Step>)
    requires Core(w) && Ledger(w) && w.waitq != [] && i < |w.slots| && Holds(w.slots[i], w.waitq[0].pid)
    requires WantsRunning(w.disk, w.slots[i].name)
    requires PolicyRestarts(Get(w.disk, w.slots[i].name).policy, w.waitq[0].exit)
    requires FailuresAfter(w.slots[i], w.now) >= RESTART_BURST_LIMIT
    requires NamesFit(steps) && forall k :: 0 <= k < |steps| ==> StepSpares(steps[k], w.slots[i].name)
    ensures Marked(Run(ReapOne(w), steps), w.slots[i].name)
  {
    hide Core, Ledger;
    SuppressedIsMarked(w, i);
    RunMarked(ReapOne(w), steps, w.slots[i].name);
  }
}
