/** The pid files agentd writes, and why they let it find its runtimes again when it is started anew. */
module SupervisorPidFiles {
  import opened AgentNames
  import opened SupervisorModel
  import opened SupervisorSafety
  import opened SupervisorRestart
  import opened SupervisorBoot

  /** The pid file of `n` names the runtime of `n`, if it has one that was not sent SIGKILL, and no other agent's. */
  ghost predicate PidFileOk(w: World, n: string) {
    && (forall p :: p in w.procs && w.procs[p].agent == n && !w.procs[p].killed ==>
          n in w.disk && Get(w.disk, n).pidFile == p)
    && (Get(w.disk, n).pidFile == 0 || Get(w.disk, n).pidFile in w.everPids)
    && (PidFileLive(w, n) ==> w.procs[Get(w.disk, n).pidFile].agent == n)
  }

  // ----- what others may do ---------------------------------------------

  /** An edit leaves the pid file of `n` as it is, and the directory is removed only when no runtime is left. */
  ghost predicate EnvLeaves(w: World, e: Env, n: string) {
    match e
    case Configure(m, s) => m == n ==> s.pidFile == Get(w.disk, n).pidFile
    case RemoveDir(m) => m == n ==> forall p :: p in w.procs && w.procs[p].agent == n ==> w.procs[p].killed
    case _ => true
  }

  ghost predicate AllLeave(w: World, es: seq<Env>, n: string)
    decreases |es|
  {
    es == [] || (EnvLeaves(w, es[0], n) && AllLeave(ApplyEnv(w, es[0]), es[1..], n))
  }

  ghost predicate StopLeaves(w: World, i: nat, script: seq<seq<Env>>, n: string)
    requires i < |w.slots|
    decreases |script|
  {
    Alive(w, i) && script != [] ==>
      (StopRoundSize(w, script[0]);
       AllLeave(w, script[0], n) && StopLeaves(StopRound(w, script[0]), i, script[1..], n))
  }

  ghost predicate StopCommandLeaves(w: World, name: string, script: seq<seq<Env>>, n: string) {
    var w1 := SetDesired(w, name, false);
    var i := FindByName(w1.slots, name);
    KnownAgent(w, name) && i >= 0 ==> StopLeaves(w1, i, script, n)
  }

  /** Nobody but agentd writes the pid file of `n` in this step. */
  ghost predicate StepLeaves(w: World, s: Step, n: string) {
    match s
    case Environment(e) => EnvLeaves(w, e, n)
    case ReconcileStep(name, _, script) =>
      var w1 := AfterExternal(w, name);
      var i := FindByName(w1.slots, name);
      i >= 0 ==> StopLeaves(w1, i, script, n)
    case StopStep(name, script) => StopCommandLeaves(w, name, script, n)
    case RestartStep(name, _, script) => StopCommandLeaves(w, name, script, n)
    case _ => true
  }

  ghost predicate RunLeaves(w: World, steps: seq<Step>, n: string)
    decreases |steps|
  {
    steps == [] || (StepLeaves(w, steps[0], n) && RunLeaves(Next(w, steps[0]), steps[1..], n))
  }

  // ----- every step keeps it --------------------------------------------

  /** No process appears, and the pid file stays. */
  ghost predicate Tame(w: World, w': World, n: string) {
    && w'.everPids == w.everPids
    && (forall p :: p in w'.procs ==>
          p in w.procs && w'.procs[p].agent == w.procs[p].agent && (w.procs[p].killed ==> w'.procs[p].killed))
    && Get(w'.disk, n).pidFile == Get(w.disk, n).pidFile && (n in w.disk ==> n in w'.disk)
  }

  lemma TameKeeps(w: World, w': World, n: string)
    requires PidFileOk(w, n) && Tame(w, w', n)
    ensures PidFileOk(w', n)
  {
  }

  lemma EnvPid(w: World, e: Env, n: string)
    requires PidFileOk(w, n) && EnvLeaves(w, e, n)
    ensures PidFileOk(ApplyEnv(w, e), n)
  {
    match e
    case RemoveDir(m) => if m == n { } else { TameKeeps(w, ApplyEnv(w, e), n); }
    case Configure(m, s) =>
    case _ => TameKeeps(w, ApplyEnv(w, e), n);
  }

  lemma AllPid(w: World, es: seq<Env>, n: string)
    requires PidFileOk(w, n) && AllLeave(w, es, n)
    ensures PidFileOk(ApplyAll(w, es), n)
    decreases |es|
  {
    if es != [] { EnvPid(w, es[0], n); AllPid(ApplyEnv(w, es[0]), es[1..], n); }
  }

  lemma DecideTame(w: World, i: nat, e: Exit, uptime: int, failures: nat, n: string)
    requires i < |w.slots| && failures > 0
    ensures Tame(w, Decide(w, i, e, uptime, failures), n)
  {
  }

  lemma ReapAllPid(w: World, n: string)
    requires PidFileOk(w, n)
    ensures PidFileOk(ReapAll(w), n)
    decreases |w.waitq|
  {
    hide PidFileOk;
    if w.waitq != [] {
      ReapOneQueue(w);
      var z := w.waitq[0];
      var k := FindByPid(w.slots, z.pid);
      var w0 := w.(waitq := w.waitq[1..], procs := w.procs - {z.pid});
      if k >= 0 {
        var w1 := SetStatus(Clear(w0, k), w.slots[k].name, ExitStatus(z.exit));
        assert Tame(w, w1, n);
        DecideTame(w1, k, z.exit, Uptime(w.slots[k], w.now), FailuresAfter(w.slots[k], w.now), n);
        TameKeeps(w, w1, n);
        TameKeeps(w1, ReapOne(w), n);
      } else {
        TameKeeps(w, w0, n);
      }
      ReapAllPid(ReapOne(w), n);
    }
  }

  lemma StopAgentPid(w: World, i: nat, script: seq<seq<Env>>, n: string)
    requires i < |w.slots| && PidFileOk(w, n) && StopLeaves(w, i, script, n)
    ensures var w' := StopAgent(w, i, script); |w'.slots| == |w.slots| && PidFileOk(w', n)
    decreases |script|
  {
    hide PidFileOk;
    if Alive(w, i) && script != [] {
      AllPid(w, script[0], n);
      ReapAllPid(ApplyAll(w, script[0]), n);
      StopRoundSize(w, script[0]);
      var w1 := StopRound(w, script[0]);
      assert StopAgent(w, i, script) == StopAgent(w1, i, script[1..]);
      StopAgentPid(w1, i, script[1..], n);
    } else {
      TameKeeps(w, StopAgent(w, i, script), n);
    }
  }

  /** The new process is the only one of its agent, and its pid is written down. */
  lemma SpawnPid(w: World, i: nat, sp: Spawn, n: string)
    requires i < |w.slots| && SpawnLegal(w, sp) && w.procs.Keys <= w.everPids && PidFileOk(w, n)
    requires w.slots[i].name == n ==> forall p :: p in w.procs && w.procs[p].agent == n ==> w.procs[p].killed
    ensures PidFileOk(TrySpawn(w, i, sp), n)
  {
  }

  lemma NoRuntimeLeft(w: World, i: nat)
    requires Core(w) && i < |w.slots| && w.slots[i].used && !Alive(w, i)
    ensures forall p :: p in w.procs && w.procs[p].agent == w.slots[i].name ==> w.procs[p].killed
  {
    forall p | p in w.procs && !w.procs[p].killed ensures w.procs[p].agent != w.slots[i].name {
      var k :| 0 <= k < |w.slots| && Holds(w.slots[k], p);
      assert Describes(w.slots[k], w.procs, w.everPids);
    }
  }

  lemma ReconcileStartPid(w: World, name: string, sp: Spawn, n: string)
    requires Core(w) && |name| <= SLOT_NAME_MAX && SpawnLegal(w, sp) && PidFileOk(w, n)
    requires FindByName(w.slots, name) >= 0 ==> !Alive(w, FindByName(w.slots, name))
    ensures PidFileOk(ReconcileStart(w, name, sp), n)
  {
    hide PidFileOk;
    AllocKeeps(w, name);
    var i, w1 := AllocIndex(w.slots, name), Alloc(w, name);
    TameKeeps(w, w1, n);
    if i >= 0 {
      NoRuntimeLeft(w1, i);
      SpawnPid(w1, i, sp, n);
      TameKeeps(w1, w1.(slots := w1.slots[i := w1.slots[i].(nextRestartAt := w1.now + 1)]), n);
    }
  }

  lemma ReconcilePid(w: World, name: string, sp: Spawn, script: seq<seq<Env>>, n: string)
    requires Core(w) && |name| <= SLOT_NAME_MAX && SpawnLegal(AfterExternal(w, name), sp) && PidFileOk(w, n)
    requires StepLeaves(w, ReconcileStep(name, sp, script), n)
    ensures PidFileOk(Reconcile(w, name, sp, script), n)
  {
    hide PidFileOk;
    var w1 := AfterExternal(w, name);
    AfterExternalKeeps(w, name);
    TameKeeps(w, w1, n);
    var i := FindByName(w1.slots, name);
    var alive := i >= 0 && Alive(w1, i);
    if WantsRunning(w.disk, name) && !alive {
      ReconcileStartPid(w1, name, sp, n);
    } else if alive && !WantsRunning(w.disk, name) {
      StopAgentPid(w1, i, script, n);
    }
  }

  lemma StartPid(w: World, name: string, sp: Spawn, n: string)
    requires Core(w) && |name| <= SLOT_NAME_MAX && SpawnLegal(w, sp) && PidFileOk(w, n)
    ensures PidFileOk(Start(w, name, sp), n)
  {
    hide PidFileOk, ValidName, FindName;
    if KnownAgent(w, name) {
      var w1 := StartSettings(w, name);
      CoreFrame(w, w1);
      AllocKeeps(w1, name);
      var i, w2 := AllocIndex(w1.slots, name), Alloc(w1, name);
      TameKeeps(w, w2, n);
      if i >= 0 && !Alive(w2, i) {
        var w3 := ClearBackoff(w2, i);
        NoRuntimeLeft(w2, i);
        TameKeeps(w2, w3, n);
        SpawnPid(w3, i, sp, n);
      }
    }
  }

  lemma StopPid(w: World, name: string, script: seq<seq<Env>>, n: string)
    requires PidFileOk(w, n) && StopCommandLeaves(w, name, script, n)
    ensures PidFileOk(Stop(w, name, script), n)
  {
    hide PidFileOk, StopLeaves;
    var w1 := SetDesired(w, name, false);
    var i := FindByName(w1.slots, name);
    if KnownAgent(w, name) {
      TameKeeps(w, w1, n);
      if i >= 0 {
        StopAgentPid(w1, i, script, n);
        TameKeeps(StopAgent(w1, i, script), Release(StopAgent(w1, i, script), i), n);
      }
    }
  }

  lemma StepPid(w: World, s: Step, n: string)
    requires Core(w) && Legal(w, s) && StepNameFits(s) && PidFileOk(w, n) && StepLeaves(w, s, n)
    ensures PidFileOk(Next(w, s), n)
  {
    hide PidFileOk, StopLeaves, StopCommandLeaves;
    match s
    case Environment(e) => EnvPid(w, e, n);
    case ReapStep => ReapAllPid(w, n);
    case ReconcileStep(name, sp, script) => ReconcilePid(w, name, sp, script, n);
    case SweepStep(i) => TameKeeps(w, Next(w, s), n);
    case ForgetStep(name) => TameKeeps(w, Next(w, s), n);
    case StartStep(name, sp) => StartPid(w, name, sp, n);
    case StopStep(name, script) => StopPid(w, name, script, n);
    case RestartStep(name, sp, script) =>
      StopKeeps(w, name, script);
      StopPid(w, name, script, n);
      StartPid(Stop(w, name, script), name, sp, n);
  }

  /** In every run in which nobody else writes the pid file of `n`, it names the runtime of `n`. */
  lemma {:induction false} RunPid(w: World, steps: seq<Step>, n: string)
    requires Core(w) && LegalRun(w, steps) && NamesFit(steps) && PidFileOk(w, n) && RunLeaves(w, steps, n)
    ensures PidFileOk(Run(w, steps), n)
    decreases |steps|
  {
    hide PidFileOk, StepLeaves;
    if steps != [] {
      StepKeeps(w, steps[0]);
      StepPid(w, steps[0], n);
      RunPid(Next(w, steps[0]), steps[1..], n);
    }
  }

  // ----- startup --------------------------------------------------------

  /** What agentd finds when it starts: the files of the agents it will visit, and of agents that do not exist yet. */
  lemma StartPidFiles(w: World, pending: set<string>, n: string)
    requires JustStarted(w, pending) && (n in pending || n !in w.disk)
    ensures PidFileOk(w, n)
  {
  }

  lemma RecoverPid(w: World, pending: set<string>, c: Call, n: string)
    requires Booting(w, pending) && c.name in pending && |c.name| <= SLOT_NAME_MAX && RecoverLegal(w, c)
    requires PidFileOk(w, n)
    ensures PidFileOk(RecoverCall(w, c), n)
  {
    hide Core, Books, PidFileOk, Roster, Mask;
    var m := c.name;
    if PidFileLive(w, m) {
      TameKeeps(w, RecoverCall(w, c), n);
    } else {
      var w1 := w.(disk := Put(w.disk, m, Get(w.disk, m).(pidFile := 0)));
      NoRuntime(w, pending, m);
      ClearedPid(w, pending, m, n);
      var i, w2 := AllocIndex(w1.slots, m), Alloc(w1, m);
      TameKeeps(w1, w2, n);
      if i >= 0 {
        AllocPending(w1, pending - {m}, m);
        KnownPids(w1, pending - {m});
        SpawnPid(w2, i, c.sp, n);
        TameKeeps(w2, Release(w2, i), n);
      }
    }
  }

  lemma ClearedPid(w: World, pending: set<string>, m: string, n: string)
    requires Booting(w, pending) && m in pending && !PidFileLive(w, m) && PidFileOk(w, n)
    ensures PidFileOk(w.(disk := Put(w.disk, m, Get(w.disk, m).(pidFile := 0))), n)
    ensures forall p :: p in w.procs ==> w.procs[p].agent != m
  {
    hide Core, Books;
    KnownPids(w, pending);
  }

  lemma KnownPids(w: World, pending: set<string>)
    requires Booting(w, pending)
    ensures w.procs.Keys <= w.everPids && 0 !in w.everPids
  {
    assert w.procs.Keys == Mask(w, pending).procs.Keys;
  }

  lemma {:induction false} BootPid(w: World, calls: seq<Call>, n: string)
    requires Booting(w, Names(calls)) && DistinctCalls(calls) && BootLegal(w, calls) && BootFits(w, calls)
    requires PidFileOk(w, n)
    ensures PidFileOk(Boot(w, calls), n)
    decreases |calls|
  {
    hide PidFileOk;
    if calls != [] {
      RecoverKeeps(w, calls);
      assert calls[0].name in Names(calls);
      RecoverPid(w, Names(calls), calls[0], n);
      BootPid(RecoverCall(w, calls[0]), calls[1..], n);
    }
  }

  /** From startup on: the pid file of every agent that was there, or came later, names its runtime for as long as
      nobody else writes it. */
  lemma PidFilesFromBoot(w: World, calls: seq<Call>, steps: seq<Step>, n: string)
    requires JustStarted(w, Names(calls)) && DistinctCalls(calls) && BootLegal(w, calls) && BootFits(w, calls)
    requires LegalRun(Boot(w, calls), steps) && NamesFit(steps)
    requires (n in Names(calls) || n !in w.disk) && RunLeaves(Boot(w, calls), steps, n)
    ensures PidFileOk(Run(Boot(w, calls), steps), n)
  {
    hide PidFileOk;
    StartPidFiles(w, Names(calls), n);
    StartBooting(w, Names(calls));
    BootKeeps(w, calls);
    BootPid(w, calls, n);
    RunPid(Boot(w, calls), steps, n);
  }

  // ----- agentd is started anew -----------------------------------------

  /** The world a new agentd finds after the old one is gone: nothing of the table, of its descriptors or of the
      zombies it had not reaped; what it sent SIGKILL is gone, and its other children are somebody else's now. */
  function Forgotten(w: World): World {
    World(seq(MAX_MANAGED, _ => FREE), w.disk,
          map p | p in w.procs && !w.procs[p].exited && !w.procs[p].killed :: w.procs[p].(child := false),
          [], w.now, {}, w.everPids, [])
  }

  /** Right pid files are all a new agentd needs to find the runtimes it left behind. */
  lemma ForgottenIsJustStarted(w: World, pending: set<string>)
    requires w.procs.Keys <= w.everPids && 0 !in w.everPids
    requires forall n :: n in pending ==> PidFileOk(w, n)
    requires forall p :: p in w.procs ==> w.procs[p].agent in pending
    ensures JustStarted(Forgotten(w), pending)
  {
    var w' := Forgotten(w);
    forall n | n in pending
      ensures Get(w'.disk, n).pidFile == 0 || Get(w'.disk, n).pidFile in w'.everPids
      ensures PidFileLive(w', n) ==> w'.procs[Get(w'.disk, n).pidFile].agent == n
    {
      assert PidFileOk(w, n);
    }
    forall p | p in w'.procs
      ensures var q := w'.procs[p]; Get(w'.disk, q.agent).pidFile == p && !q.child && !q.killed && !q.exited
    {
      assert PidFileOk(w, w.procs[p].agent);
    }
  }

  /** One runtime per agent across two lives of agentd: the second finds every runtime of the first, adopts it instead
      of starting another, and keeps the promise in all its runs. */
  lemma OneRuntimeAcrossRestarts(w: World, calls: seq<Call>, steps: seq<Step>, calls2: seq<Call>, steps2: seq<Step>)
    requires JustStarted(w, Names(calls)) && DistinctCalls(calls) && BootLegal(w, calls) && BootFits(w, calls)
    requires LegalRun(Boot(w, calls), steps) && NamesFit(steps)
    requires forall n :: n in Names(calls2) ==>
      (n in Names(calls) || n !in w.disk) && RunLeaves(Boot(w, calls), steps, n)
    requires var w1 := Run(Boot(w, calls), steps);
      && (forall p :: p in w1.procs ==> w1.procs[p].agent in Names(calls2))
      && DistinctCalls(calls2) && BootLegal(Forgotten(w1), calls2) && BootFits(Forgotten(w1), calls2)
      && LegalRun(Boot(Forgotten(w1), calls2), steps2) && NamesFit(steps2)
    ensures var w1 := Run(Boot(w, calls), steps);
      JustStarted(Forgotten(w1), Names(calls2)) && OneRuntimePerAgent(Run(Boot(Forgotten(w1), calls2), steps2))
  {
    hide PidFileOk, JustStarted, Core, Books;
    var w1 := Run(Boot(w, calls), steps);
    forall n | n in Names(calls2) ensures PidFileOk(w1, n) { PidFilesFromBoot(w, calls, steps, n); }
    StartBooting(w, Names(calls));
    BootKeeps(w, calls);
    RunKeeps(Boot(w, calls), steps);
    CorePids(w1);
    ForgottenIsJustStarted(w1, Names(calls2));
    OneRuntimeFromBoot(Forgotten(w1), calls2, steps2);
  }

  lemma CorePids(w: World)
    requires Core(w)
    ensures w.procs.Keys <= w.everPids && 0 !in w.everPids
  {
  }
}
