/** One live runtime per agent, over every run of the supervisor. */
module SupervisorSafety {
  import opened SupervisorModel

  // ----- the invariant --------------------------------------------------

  ghost predicate NamesDistinct(slots: seq<Slot>) {
    forall i, j :: 0 <= i < j < |slots| && slots[i].used && slots[j].used ==> slots[i].name != slots[j].name
  }

  ghost predicate PidsDistinct(slots: seq<Slot>) {
    forall i, j :: 0 <= i < j < |slots| && slots[i].used && slots[j].used && slots[i].pid > 0
      ==> slots[i].pid != slots[j].pid
  }

  predicate Idle(s: Slot) { s.pidfd < 0 && s.brokerFd < 0 && s.inboxFd < 0 }

  ghost predicate IdleHoldsNothing(slots: seq<Slot>) {
    forall i :: 0 <= i < |slots| && slots[i].used && slots[i].pid == 0 ==> Idle(slots[i])
  }

  /** What a used slot says about its process is true. */
  predicate Describes(s: Slot, procs: map<nat, Process>, everPids: set<nat>) {
    s.used ==>
      && |s.name| <= SLOT_NAME_MAX
      && (s.pid > 0 ==>
            && s.pid in everPids
            && (!s.external ==> s.pid in procs)
            && (s.pid in procs ==> procs[s.pid].agent == s.name && procs[s.pid].child == !s.external))
  }

  ghost predicate SlotsDescribe(slots: seq<Slot>, procs: map<nat, Process>, everPids: set<nat>) {
    forall i :: 0 <= i < |slots| ==> Describes(slots[i], procs, everPids)
  }

  predicate Holds(s: Slot, p: nat) { s.used && s.pid == p }

  /** Every runtime that has not been sent SIGKILL is held by a slot. */
  ghost predicate Held(slots: seq<Slot>, procs: map<nat, Process>) {
    forall p :: p in procs && !procs[p].killed ==> exists i :: 0 <= i < |slots| && Holds(slots[i], p)
  }

  ghost predicate Queue(waitq: seq<Zombie>, procs: map<nat, Process>) {
    && (forall k :: 0 <= k < |waitq| ==>
      waitq[k].pid in procs && procs[waitq[k].pid].child && procs[waitq[k].pid].exited)
    && (forall k, l :: 0 <= k < l < |waitq| ==> waitq[k].pid != waitq[l].pid)
  }

  ghost predicate Core(w: World) {
    && |w.slots| == MAX_MANAGED
    && NamesDistinct(w.slots) && PidsDistinct(w.slots) && IdleHoldsNothing(w.slots)
    && SlotsDescribe(w.slots, w.procs, w.everPids)
    && Held(w.slots, w.procs)
    && Queue(w.waitq, w.procs)
    && w.procs.Keys <= w.everPids && 0 !in w.everPids
  }

  /** The settings, the clock, the log and the descriptors play no part in the invariant. */
  lemma CoreFrame(w: World, w': World)
    requires Core(w)
    requires w'.slots == w.slots && w'.procs == w.procs && w'.waitq == w.waitq && w'.everPids == w.everPids
    ensures Core(w')
  {
  }

  /** The bookkeeping fields of a slot play no part either. */
  lemma CoreSameRuntime(w: World, w': World, i: nat)
    requires Core(w) && i < |w.slots|
    requires w'.procs == w.procs && w'.waitq == w.waitq && w'.everPids == w.everPids
    requires |w'.slots| == |w.slots|
    requires forall j :: 0 <= j < |w.slots| && j != i ==> w'.slots[j] == w.slots[j]
    requires var s, s' := w.slots[i], w'.slots[i];
      s' == s.(failures := s'.failures, restartCount := s'.restartCount, nextRestartAt := s'.nextRestartAt)
    ensures Core(w')
  {
    assert forall j :: 0 <= j < |w.slots| ==>
      var s, s' := w.slots[j], w'.slots[j];
      s'.used == s.used && s'.name == s.name && s'.pid == s.pid && Idle(s') == Idle(s)
      && Describes(s', w'.procs, w'.everPids) == Describes(s, w.procs, w.everPids);
    forall p | p in w'.procs && !w'.procs[p].killed
      ensures exists k :: 0 <= k < |w'.slots| && Holds(w'.slots[k], p)
    {
      var k :| 0 <= k < |w.slots| && Holds(w.slots[k], p);
      assert Holds(w'.slots[k], p);
    }
  }

  // ----- the primitives -------------------------------------------------

  lemma ClearKeeps(w: World, i: nat)
    requires Core(w) && i < |w.slots|
    requires w.slots[i].pid in w.procs ==> w.procs[w.slots[i].pid].killed
    ensures Core(Clear(w, i))
  {
    var w' := Clear(w, i);
    forall p | p in w'.procs && !w'.procs[p].killed
      ensures exists k :: 0 <= k < |w'.slots| && Holds(w'.slots[k], p)
    {
      var k :| 0 <= k < |w.slots| && Holds(w.slots[k], p);
      assert k != i && Holds(w'.slots[k], p);
    }
  }

  lemma ReleaseKeeps(w: World, i: nat)
    requires Core(w) && i < |w.slots|
    requires w.slots[i].pid in w.procs ==> w.procs[w.slots[i].pid].killed
    ensures Core(Release(w, i))
  {
    var w' := Release(w, i);
    forall p | p in w'.procs && !w'.procs[p].killed
      ensures exists k :: 0 <= k < |w'.slots| && Holds(w'.slots[k], p)
    {
      var k :| 0 <= k < |w.slots| && Holds(w.slots[k], p);
      assert k != i && Holds(w'.slots[k], p);
    }
  }

  lemma AllocKeeps(w: World, name: string)
    requires Core(w) && |name| <= SLOT_NAME_MAX
    ensures Core(Alloc(w, name))
    ensures var i, w' := AllocIndex(w.slots, name), Alloc(w, name);
      && |w'.slots| == |w.slots|
      && (i >= 0 ==> w'.slots[i].used && w'.slots[i].name == name)
      && (i >= 0 && !w.slots[i].used ==> w'.slots[i] == FreshSlot(name))
      && w'.procs == w.procs && w'.waitq == w.waitq && w'.everPids == w.everPids
      && w'.disk == w.disk && w'.now == w.now && w'.open == w.open
  {
    var i, w' := AllocIndex(w.slots, name), Alloc(w, name);
    if i >= 0 && !w.slots[i].used {
      assert FindByName(w.slots, name) < 0;
      forall p | p in w'.procs && !w'.procs[p].killed
        ensures exists k :: 0 <= k < |w'.slots| && Holds(w'.slots[k], p)
      {
        var k :| 0 <= k < |w.slots| && Holds(w.slots[k], p);
        assert k != i && Holds(w'.slots[k], p);
      }
    }
  }

  lemma SpawnKeeps(w: World, i: nat, sp: Spawn)
    requires Core(w) && i < |w.slots| && w.slots[i].used && !Alive(w, i)
    requires SpawnLegal(w, sp)
    ensures Core(DoSpawn(w, i, sp))
  {
    if sp.Forked? {
      var w' := DoSpawn(w, i, sp);
      forall j | 0 <= j < |w'.slots| ensures Describes(w'.slots[j], w'.procs, w'.everPids) {
        if j != i { assert Describes(w.slots[j], w.procs, w.everPids); }
      }
      forall p | p in w'.procs && !w'.procs[p].killed
        ensures exists k :: 0 <= k < |w'.slots| && Holds(w'.slots[k], p)
      {
        if p == sp.pid {
          assert Holds(w'.slots[i], p);
        } else {
          var k :| 0 <= k < |w.slots| && Holds(w.slots[k], p);
          assert k != i && Holds(w'.slots[k], p);
        }
      }
    }
  }

  // ----- the environment and the reaper ---------------------------------

  lemma ExitKeeps(w: World, pid: nat, exit: Exit)
    requires Core(w)
    ensures Core(ApplyEnv(w, Exits(pid, exit)))
  {
    var w' := ApplyEnv(w, Exits(pid, exit));
    if pid in w.procs && !w.procs[pid].exited {
      forall j | 0 <= j < |w'.slots| ensures Describes(w'.slots[j], w'.procs, w'.everPids) {
        assert Describes(w.slots[j], w.procs, w.everPids);
      }
      forall p | p in w'.procs && !w'.procs[p].killed
        ensures exists k :: 0 <= k < |w'.slots| && Holds(w'.slots[k], p)
      {
        var k :| 0 <= k < |w.slots| && Holds(w.slots[k], p);
        assert Holds(w'.slots[k], p);
      }
    }
  }

  lemma EnvKeeps(w: World, e: Env)
    requires Core(w)
    ensures Core(ApplyEnv(w, e))
  {
    match e
    case Exits(pid, exit) => ExitKeeps(w, pid, exit);
    case _ => CoreFrame(w, ApplyEnv(w, e));
  }

  lemma ApplyAllKeeps(w: World, es: seq<Env>)
    requires Core(w)
    ensures Core(ApplyAll(w, es))
    decreases |es|
  {
    if es != [] { EnvKeeps(w, es[0]); ApplyAllKeeps(ApplyEnv(w, es[0]), es[1..]); }
  }

  /** Reaping the process of slot i and clearing the slot, taken together. */
  lemma ReapClearKeeps(w: World, i: nat)
    requires Core(w) && w.waitq != [] && i < |w.slots|
    requires w.slots[i].used && w.slots[i].pid == w.waitq[0].pid
    ensures Core(Clear(w.(waitq := w.waitq[1..], procs := w.procs - {w.waitq[0].pid}), i))
  {
    var pid := w.waitq[0].pid;
    var w' := Clear(w.(waitq := w.waitq[1..], procs := w.procs - {pid}), i);
    assert Describes(w.slots[i], w.procs, w.everPids);
    forall j | 0 <= j < |w'.slots| ensures Describes(w'.slots[j], w'.procs, w'.everPids) {
      assert Describes(w.slots[j], w.procs, w.everPids);
    }
    forall p | p in w'.procs && !w'.procs[p].killed
      ensures exists k :: 0 <= k < |w'.slots| && Holds(w'.slots[k], p)
    {
      var k :| 0 <= k < |w.slots| && Holds(w.slots[k], p);
      assert k != i && Holds(w'.slots[k], p);
    }
  }

  /** Reaping a process no slot holds: one that was sent SIGKILL and then let go. */
  lemma ReapUnheldKeeps(w: World)
    requires Core(w) && w.waitq != [] && FindByPid(w.slots, w.waitq[0].pid) < 0
    ensures Core(w.(waitq := w.waitq[1..], procs := w.procs - {w.waitq[0].pid}))
  {
    var pid := w.waitq[0].pid;
    var w' := w.(waitq := w.waitq[1..], procs := w.procs - {pid});
    forall j | 0 <= j < |w'.slots| ensures Describes(w'.slots[j], w'.procs, w'.everPids) {
      assert Describes(w.slots[j], w.procs, w.everPids);
    }
    forall p | p in w'.procs && !w'.procs[p].killed
      ensures exists k :: 0 <= k < |w'.slots| && Holds(w'.slots[k], p)
    {
      var k :| 0 <= k < |w.slots| && Holds(w.slots[k], p);
      assert Holds(w'.slots[k], p);
    }
  }

  lemma ReapOneKeeps(w: World)
    requires Core(w) && w.waitq != []
    ensures Core(ReapOne(w))
  {
    var z := w.waitq[0];
    var w0 := w.(waitq := w.waitq[1..], procs := w.procs - {z.pid});
    var i := FindByPid(w.slots, z.pid);
    if i < 0 {
      ReapUnheldKeeps(w);
    } else {
      ReapClearKeeps(w, i);
      var s := w.slots[i];
      var w1 := SetStatus(Clear(w0, i), s.name, ExitStatus(z.exit));
      CoreFrame(Clear(w0, i), w1);
      DecideFrame(w1, i, z.exit, Uptime(s, w.now), FailuresAfter(s, w.now));
      CoreSameRuntime(w1, Decide(w1, i, z.exit, Uptime(s, w.now), FailuresAfter(s, w.now)), i);
    }
  }

  lemma ReapAllKeeps(w: World)
    requires Core(w)
    ensures Core(ReapAll(w))
    decreases |w.waitq|
  {
    if w.waitq != [] { ReapOneQueue(w); ReapOneKeeps(w); ReapAllKeeps(ReapOne(w)); }
  }

  // ----- stop -----------------------------------------------------------

  lemma KillKeeps(w: World, i: nat)
    requires Core(w) && i < |w.slots|
    ensures Core(Kill(w, i))
    ensures var w' := Kill(w, i); w'.slots[i].pid in w'.procs ==> w'.procs[w'.slots[i].pid].killed
  {
    var w' := Kill(w, i);
    forall j | 0 <= j < |w'.slots| ensures Describes(w'.slots[j], w'.procs, w'.everPids) {
      assert Describes(w.slots[j], w.procs, w.everPids);
    }
    forall p | p in w'.procs && !w'.procs[p].killed
      ensures exists k :: 0 <= k < |w'.slots| && Holds(w'.slots[k], p)
    {
      var k :| 0 <= k < |w.slots| && Holds(w.slots[k], p);
      assert Holds(w'.slots[k], p);
    }
  }

  lemma StopLoopKeeps(w: World, i: nat, script: seq<seq<Env>>)
    requires Core(w) && i < |w.slots|
    ensures Core(StopLoop(w, i, script))
    ensures var w' := StopLoop(w, i, script);
      |w'.slots| == |w.slots| && (w'.slots[i].pid in w'.procs ==> w'.procs[w'.slots[i].pid].killed)
    decreases |script|
  {
    if script == [] {
      KillKeeps(w, i);
    } else {
      ApplyAllKeeps(w, script[0]);
      ApplyAllSlots(w, script[0]);
      ReapAllKeeps(ApplyAll(w, script[0]));
      StopRoundSize(w, script[0]);
      var w1 := StopRound(w, script[0]);
      if !Alive(w1, i) { ClearKeeps(w1, i); } else { StopLoopKeeps(w1, i, script[1..]); }
    }
  }

  lemma StopAgentKeeps(w: World, i: nat, script: seq<seq<Env>>)
    requires Core(w) && i < |w.slots|
    ensures Core(StopAgent(w, i, script))
    ensures var w' := StopAgent(w, i, script);
      |w'.slots| == |w.slots| && (w'.slots[i].pid in w'.procs ==> w'.procs[w'.slots[i].pid].killed)
  {
    if !Alive(w, i) { ClearKeeps(w, i); } else { StopLoopKeeps(w, i, script); }
  }

  // ----- the handlers ---------------------------------------------------

  lemma DropExternalKeeps(w: World, i: nat)
    requires Core(w) && i < |w.slots| && !Alive(w, i)
    ensures Core(DropExternal(w, i))
  {
    var w1 := SetStatus(w, w.slots[i].name, Stopped);
    CoreFrame(w, w1);
    ClearKeeps(w1, i);
    var w2, w3 := Clear(w1, i), DropExternal(w, i);
    forall j | 0 <= j < |w3.slots| ensures Describes(w3.slots[j], w3.procs, w3.everPids) {
      assert Describes(w2.slots[j], w2.procs, w2.everPids);
    }
    forall p | p in w3.procs && !w3.procs[p].killed
      ensures exists k :: 0 <= k < |w3.slots| && Holds(w3.slots[k], p)
    {
      var k :| 0 <= k < |w2.slots| && Holds(w2.slots[k], p);
      assert Holds(w3.slots[k], p);
    }
  }

  lemma AfterExternalKeeps(w: World, name: string)
    requires Core(w)
    ensures Core(AfterExternal(w, name))
    ensures var w' := AfterExternal(w, name);
      w'.procs == w.procs && w'.everPids == w.everPids && |w'.slots| == |w.slots|
  {
    var i := FindByName(w.slots, name);
    if i >= 0 && ExternalGone(w, i) { DropExternalKeeps(w, i); }
  }

  lemma NotAliveAfterExternal(w: World, name: string)
    requires Core(w)
    ensures var w1 := AfterExternal(w, name);
      var i := FindByName(w1.slots, name);
      i >= 0 && !Alive(w1, i) ==> w1.slots[i].pid == 0
  {
    AfterExternalKeeps(w, name);
    var w1 := AfterExternal(w, name);
    var i := FindByName(w1.slots, name);
    var k := FindByName(w.slots, name);
    if i >= 0 {
      assert Describes(w1.slots[i], w1.procs, w1.everPids);
      if k >= 0 && ExternalGone(w, k) { assert w1.slots[k].used && w1.slots[k].name == name; }
    }
  }

  lemma ReconcileStartKeeps(w: World, name: string, sp: Spawn)
    requires Core(w) && |name| <= SLOT_NAME_MAX && SpawnLegal(w, sp)
    requires FindByName(w.slots, name) >= 0 ==> !Alive(w, FindByName(w.slots, name))
    ensures Core(ReconcileStart(w, name, sp))
  {
    AllocKeeps(w, name);
    var i, w1 := AllocIndex(w.slots, name), Alloc(w, name);
    if i >= 0 {
      if w1.slots[i].nextRestartAt <= w1.now {
        if Outcome(w1, i, sp).SpawnFailed? {
          CoreSameRuntime(w1, ReconcileStart(w, name, sp), i);
        } else {
          SpawnKeeps(w1, i, Outcome(w1, i, sp));
        }
      }
    }
  }

  lemma ReconcileKeeps(w: World, name: string, sp: Spawn, script: seq<seq<Env>>)
    requires Core(w) && |name| <= SLOT_NAME_MAX && SpawnLegal(AfterExternal(w, name), sp)
    ensures Core(Reconcile(w, name, sp, script))
  {
    AfterExternalKeeps(w, name);
    var w1 := AfterExternal(w, name);
    var i := FindByName(w1.slots, name);
    var alive := i >= 0 && Alive(w1, i);
    if WantsRunning(w.disk, name) && !alive {
      ReconcileStartKeeps(w1, name, sp);
    } else if alive && !WantsRunning(w.disk, name) {
      StopAgentKeeps(w1, i, script);
    }
  }

  lemma StartKeeps(w: World, name: string, sp: Spawn)
    requires Core(w) && |name| <= SLOT_NAME_MAX && SpawnLegal(w, sp)
    ensures Core(Start(w, name, sp))
  {
    if KnownAgent(w, name) {
      var w1 := StartSettings(w, name);
      CoreFrame(w, w1);
      AllocKeeps(w1, name);
      var i, w2 := AllocIndex(w1.slots, name), Alloc(w1, name);
      if i >= 0 && !Alive(w2, i) {
        CoreSameRuntime(w2, ClearBackoff(w2, i), i);
        SpawnKeeps(ClearBackoff(w2, i), i, Outcome(w2, i, sp));
      }
    }
  }

  lemma StopKeeps(w: World, name: string, script: seq<seq<Env>>)
    requires Core(w)
    ensures Core(Stop(w, name, script))
  {
    if KnownAgent(w, name) {
      var w1 := SetDesired(w, name, false);
      CoreFrame(w, w1);
      var i := FindByName(w1.slots, name);
      if i >= 0 {
        StopAgentKeeps(w1, i, script);
        ReleaseKeeps(StopAgent(w1, i, script), i);
      }
    }
  }

  // ----- runs -----------------------------------------------------------

  predicate StepNameFits(s: Step) {
    match s
    case ReconcileStep(name, _, _) => |name| <= SLOT_NAME_MAX
    case StartStep(name, _) => |name| <= SLOT_NAME_MAX
    case RestartStep(name, _, _) => |name| <= SLOT_NAME_MAX
    case _ => true
  }

  predicate NamesFit(steps: seq<Step>) {
    forall k :: 0 <= k < |steps| ==> StepNameFits(steps[k])
  }

  lemma StepKeeps(w: World, s: Step)
    requires Core(w) && Legal(w, s) && StepNameFits(s)
    ensures Core(Next(w, s))
  {
    match s
    case Environment(e) => EnvKeeps(w, e);
    case ReapStep => ReapAllKeeps(w);
    case ReconcileStep(name, sp, script) => ReconcileKeeps(w, name, sp, script);
    case SweepStep(i) => if i < |w.slots| && w.slots[i].external { DropExternalKeeps(w, i); }
    case ForgetStep(name) =>
      var i := FindByName(w.slots, name);
      if i >= 0 && w.slots[i].pid == 0 { ReleaseKeeps(w, i); }
    case StartStep(name, sp) => StartKeeps(w, name, sp);
    case StopStep(name, script) => StopKeeps(w, name, script);
    case RestartStep(name, sp, script) => StopKeeps(w, name, script); StartKeeps(Stop(w, name, script), name, sp);
  }

  lemma {:induction false} RunKeeps(w: World, steps: seq<Step>)
    requires Core(w) && LegalRun(w, steps) && NamesFit(steps)
    ensures Core(Run(w, steps))
    decreases |steps|
  {
    if steps != [] {
      StepKeeps(w, steps[0]);
      RunKeeps(Next(w, steps[0]), steps[1..]);
    }
  }

  /** Two runtimes of one agent, neither sent SIGKILL, are the same process. */
  ghost predicate OneRuntimePerAgent(w: World) {
    && (forall p, q :: p in w.procs && q in w.procs && !w.procs[p].killed && !w.procs[q].killed ==>
          w.procs[p].agent == w.procs[q].agent ==> p == q)
    && (forall p :: p in w.procs && !w.procs[p].killed ==>
          var i := FindByName(w.slots, w.procs[p].agent); i >= 0 && w.slots[i].pid == p)
  }

  lemma CoreMeansOneRuntime(w: World)
    requires Core(w)
    ensures OneRuntimePerAgent(w)
  {
    forall p | p in w.procs && !w.procs[p].killed
      ensures var i := FindByName(w.slots, w.procs[p].agent); i >= 0 && w.slots[i].pid == p
    {
      var k :| 0 <= k < |w.slots| && Holds(w.slots[k], p);
      assert Describes(w.slots[k], w.procs, w.everPids);
    }
  }

  /** The supervisor's safety theorem. */
  lemma OneRuntimeInEveryRun(w: World, steps: seq<Step>)
    requires Core(w) && LegalRun(w, steps) && NamesFit(steps)
    ensures var w' := Run(w, steps);
      OneRuntimePerAgent(w') && NamesDistinct(w'.slots) && PidsDistinct(w'.slots) && IdleHoldsNothing(w'.slots)
  {
    RunKeeps(w, steps);
    CoreMeansOneRuntime(Run(w, steps));
  }
}
