/** What the handlers achieve: which exits lead where, and that reconciling, starting, stopping and recovering an agent
    leave it as its settings ask. */
module SupervisorEffects {
  import opened SupervisorModel
  import opened SupervisorSafety
  import opened SupervisorRestart
  import opened SupervisorRuns

  // ----- an exit --------------------------------------------------------

  /** What one reaped exit does, by the exit, the settings and the slot alone. */
  lemma ExitTable(w: World, i: nat)
    requires Core(w) && w.waitq != [] && i < |w.slots| && Holds(w.slots[i], w.waitq[0].pid)
    requires w.slots[i].name in w.disk
    ensures var w', s, e := ReapOne(w), w.slots[i], w.waitq[0].exit;
      var d := w.disk[s.name];
      var clean := e == Exited(0) || e == Signaled(0);
      var stable := s.lastStartedAt > 0 && w.now - s.lastStartedAt >= 30;
      var k := if stable then 1 else s.failures + 1;
      var end := if clean then Stopped else if e.Signaled? then Crashed else Failed;
      |w'.slots| == |w.slots| && s.name in w'.disk &&
      var s', d' := w'.slots[i], w'.disk[s.name];
      && w.waitq[0].pid !in w'.procs && s'.pid == 0 && s'.used && s'.name == s.name
      && (!(d.enabled && d.desired) ==> d' == d.(status := end) && s' == ClearedSlot(s))
      && (d.enabled && d.desired && (d.policy == Never || (d.policy == OnFailure && clean)) ==>
            d' == d.(status := end, desired := false) && s' == ClearedSlot(s))
      && (d.enabled && d.desired && (d.policy == Always || (d.policy == OnFailure && !clean)) ==>
            if k < 5 then
              && d' == d.(status := end)
              && s' == ClearedSlot(s).(failures := k, restartCount := s.restartCount + 1,
                                       nextRestartAt := w.now + Pow2(k - 1))
            else
              && d' == d.(status := CrashLoop, desired := false)
              && s' == ClearedSlot(s).(failures := k, restartCount := s.restartCount + 1, nextRestartAt := 0))
  {
    OwnExit(w, i);
    Pow2Small(FailuresAfter(w.slots[i], w.now));
  }

  /** If the agent's directory is gone there is nothing to write and nothing to want: the slot is cleared. */
  lemma ExitOfRemoved(w: World, i: nat)
    requires Core(w) && w.waitq != [] && i < |w.slots| && Holds(w.slots[i], w.waitq[0].pid)
    requires w.slots[i].name !in w.disk
    ensures var w' := ReapOne(w);
      && w'.disk == w.disk && w'.slots == w.slots[i := ClearedSlot(w.slots[i])]
      && w'.procs == w.procs - {w.waitq[0].pid}
  {
    OwnExit(w, i);
  }

  lemma OwnExit(w: World, i: nat)
    requires Core(w) && w.waitq != [] && i < |w.slots| && Holds(w.slots[i], w.waitq[0].pid)
    ensures FindByPid(w.slots, w.waitq[0].pid) == i
  {
  }

  // ----- reconciliation -------------------------------------------------

  /** The slot of an agent, as a caller finds it. */
  predicate Runs(w: World, name: string, pid: nat) {
    var i := FindByName(w.slots, name);
    i >= 0 && w.slots[i].pid == pid && Alive(w, i)
  }

  predicate NothingRuns(w: World, name: string) {
    var i := FindByName(w.slots, name);
    i >= 0 ==> !Alive(w, i)
  }

  /** A spawn into the slot of an agent on disk that has no process. */
  lemma SpawnRuns(w: World, i: nat, sp: Spawn)
    requires Core(w) && i < |w.slots| && w.slots[i].used && !Alive(w, i) && SpawnLegal(w, sp)
    requires w.slots[i].name in w.disk && sp.Forked?
    ensures var w', n := TrySpawn(w, i, sp), w.slots[i].name;
      && Runs(w', n, sp.pid) && w'.procs[sp.pid] == Process(n, true, false, false)
      && Get(w'.disk, n).pidFile == sp.pid && FindByName(w'.slots, n) == i && w'.slots[i].nextRestartAt == 0
      && w'.slots[i].lastStartedAt == w.now && w'.slots[i].failures == w.slots[i].failures
  {
    var w' := TrySpawn(w, i, sp);
    SpawnKeeps(w, i, sp);
    assert w'.slots[i].used && w'.slots[i].name == w.slots[i].name;
  }

  lemma AfterExternalQuiet(w: World, name: string)
    requires Core(w)
    ensures var w1, i := AfterExternal(w, name), FindByName(w.slots, name);
      && FindByName(w1.slots, name) == i && |w1.slots| == |w.slots| && w1.now == w.now && w1.procs == w.procs
      && AllocIndex(w1.slots, name) == AllocIndex(w.slots, name)
      && (forall n :: WantsRunning(w1.disk, n) == WantsRunning(w.disk, n)) && w1.disk.Keys == w.disk.Keys
      && (i >= 0 && Alive(w, i) ==> w1 == w)
      && (i >= 0 ==> w1.slots[i].nextRestartAt == w.slots[i].nextRestartAt && Alive(w1, i) == Alive(w, i))
  {
    var i := FindByName(w.slots, name);
    if i >= 0 && ExternalGone(w, i) {
      var w1 := DropExternal(w, i);
      assert forall j :: 0 <= j < |w.slots| ==>
        w1.slots[j].used == w.slots[j].used && w1.slots[j].name == w.slots[j].name;
      SameNames(w.slots, w1.slots, name, 0);
    }
  }

  lemma {:induction false} SameNames(a: seq<Slot>, b: seq<Slot>, name: string, from: nat)
    requires |a| == |b| && from <= |a|
    requires forall j :: 0 <= j < |a| ==> a[j].used == b[j].used && a[j].name == b[j].name
    ensures FindName(a, name, from) == FindName(b, name, from) && FindFree(a, from) == FindFree(b, from)
    decreases |a| - from
  {
    if from < |a| { SameNames(a, b, name, from + 1); }
  }

  /** A wanted agent without a process is started, once its delay is over and if there is a slot for it; when the fork
      fails it is tried again a second later. */
  lemma ReconcileStarts(w: World, name: string, sp: Spawn, script: seq<seq<Env>>)
    requires Core(w) && |name| <= SLOT_NAME_MAX && SpawnLegal(AfterExternal(w, name), sp)
    requires WantsRunning(w.disk, name) && NothingRuns(w, name) && AllocIndex(w.slots, name) >= 0
    requires var i := FindByName(w.slots, name); i >= 0 ==> w.slots[i].nextRestartAt <= w.now
    ensures var w' := Reconcile(w, name, sp, script);
      var i := FindByName(w'.slots, name);
      && i >= 0
      && (sp.Forked? ==> Runs(w', name, sp.pid) && w'.procs[sp.pid] == Process(name, true, false, false))
      && (sp.SpawnFailed? ==> w'.slots[i].pid == 0 && w'.slots[i].nextRestartAt == w.now + 1 && w'.procs == w.procs)
  {
    AfterExternalQuiet(w, name);
    AfterExternalKeeps(w, name);
    NotAliveAfterExternal(w, name);
    StartsFromIdle(AfterExternal(w, name), name, sp);
  }

  lemma StartsFromIdle(w: World, name: string, sp: Spawn)
    requires Core(w) && |name| <= SLOT_NAME_MAX && SpawnLegal(w, sp) && WantsRunning(w.disk, name)
    requires AllocIndex(w.slots, name) >= 0
    requires var i := FindByName(w.slots, name); i >= 0 ==> w.slots[i].pid == 0 && w.slots[i].nextRestartAt <= w.now
    ensures var w' := ReconcileStart(w, name, sp);
      var i := FindByName(w'.slots, name);
      && i >= 0
      && (sp.Forked? ==> Runs(w', name, sp.pid) && w'.procs[sp.pid] == Process(name, true, false, false))
      && (sp.SpawnFailed? ==> w'.slots[i].pid == 0 && w'.slots[i].nextRestartAt == w.now + 1 && w'.procs == w.procs)
  {
    AllocKeeps(w, name);
    var k, w1 := AllocIndex(w.slots, name), Alloc(w, name);
    assert FindByName(w1.slots, name) == k by { assert w1.slots[k].used && w1.slots[k].name == name; }
    if sp.Forked? {
      SpawnRuns(w1, k, sp);
    } else {
      var w' := ReconcileStart(w, name, sp);
      SameNames(w1.slots, w'.slots, name, 0);
    }
  }

  /** Until its delay is over it is left alone. */
  lemma ReconcileWaits(w: World, name: string, sp: Spawn, script: seq<seq<Env>>)
    requires Core(w) && WantsRunning(w.disk, name) && NothingRuns(w, name)
    requires var i := FindByName(w.slots, name); i >= 0 && w.slots[i].nextRestartAt > w.now
    ensures Reconcile(w, name, sp, script) == AfterExternal(w, name)
  {
    AfterExternalQuiet(w, name);
  }

  /** An agent that runs and is not wanted is stopped: whatever its process does meanwhile, in the end it is gone or has
      been sent SIGKILL, and the slot holds no other. */
  lemma ReconcileStops(w: World, name: string, sp: Spawn, script: seq<seq<Env>>, pid: nat)
    requires Core(w) && Runs(w, name, pid) && !WantsRunning(w.disk, name)
    ensures var w' := Reconcile(w, name, sp, script);
      var i := FindByName(w.slots, name);
      && (pid in w'.procs ==> w'.procs[pid].killed)
      && |w'.slots| == |w.slots| && (Alive(w', i) ==> w'.slots[i].pid == pid)
  {
    AfterExternalQuiet(w, name);
    StopKills(w, FindByName(w.slots, name), script);
  }

  lemma StopKills(w: World, i: nat, script: seq<seq<Env>>)
    requires Core(w) && i < |w.slots| && w.slots[i].used && Alive(w, i)
    ensures var w', pid := StopAgent(w, i, script), w.slots[i].pid;
      && (pid in w'.procs ==> w'.procs[pid].killed)
      && |w'.slots| == |w.slots| && (Alive(w', i) ==> w'.slots[i].pid == pid)
  {
    var w', pid := StopAgent(w, i, script), w.slots[i].pid;
    assert Describes(w.slots[i], w.procs, w.everPids);
    StopAgentKeeps(w, i, script);
    StopLoopCalm(w, i, script);
    StopLoopSlot(w, i, script);
    if pid in w'.procs && !w'.procs[pid].killed { HeldByItsSlot(w', i, pid); }
  }

  lemma HeldByItsSlot(w: World, i: nat, pid: nat)
    requires Core(w) && i < |w.slots| && w.slots[i].used && pid in w.procs && !w.procs[pid].killed
    requires w.procs[pid].agent == w.slots[i].name
    ensures w.slots[i].pid == pid
  {
    var k :| 0 <= k < |w.slots| && Holds(w.slots[k], pid);
    assert Describes(w.slots[k], w.procs, w.everPids);
  }

  lemma ReapAllPid(w: World, i: nat)
    requires i < |w.slots|
    ensures var w' := ReapAll(w);
      |w'.slots| == |w.slots| && w'.slots[i].used == w.slots[i].used && w'.slots[i].name == w.slots[i].name
      && w'.slots[i].pid in {0, w.slots[i].pid}
    decreases |w.waitq|
  {
    if w.waitq != [] {
      ReapOneQueue(w);
      var z := w.waitq[0];
      var k := FindByPid(w.slots, z.pid);
      if k >= 0 {
        var w0 := w.(waitq := w.waitq[1..], procs := w.procs - {z.pid});
        var w1 := SetStatus(Clear(w0, k), w.slots[k].name, ExitStatus(z.exit));
        DecideFrame(w1, k, z.exit, Uptime(w.slots[k], w.now), FailuresAfter(w.slots[k], w.now));
      }
      ReapAllPid(ReapOne(w), i);
    }
  }

  /** A stop never gives the slot another process or another name. */
  lemma StopLoopSlot(w: World, i: nat, script: seq<seq<Env>>)
    requires i < |w.slots|
    ensures var w' := StopLoop(w, i, script);
      |w'.slots| == |w.slots| && w'.slots[i].used == w.slots[i].used && w'.slots[i].name == w.slots[i].name
      && w'.slots[i].pid in {0, w.slots[i].pid}
    decreases |script|
  {
    if script != [] {
      ApplyAllSlots(w, script[0]);
      ReapAllPid(ApplyAll(w, script[0]), i);
      var w1 := StopRound(w, script[0]);
      if Alive(w1, i) { StopLoopSlot(w1, i, script[1..]); }
    }
  }

  /** In every other case reconciling only cleans up after an adopted runtime that is gone. */
  lemma ReconcileElse(w: World, name: string, sp: Spawn, script: seq<seq<Env>>)
    requires Core(w) && (WantsRunning(w.disk, name) <==> !NothingRuns(w, name))
    ensures Reconcile(w, name, sp, script) == AfterExternal(w, name)
  {
    AfterExternalQuiet(w, name);
  }

  /** What that leaves, for reconcile and for the pidfd that reports the exit: a stopped agent and an empty slot of its
      own, ready to be used again. */
  lemma DropExternalCleans(w: World, i: nat)
    requires Core(w) && i < |w.slots| && w.slots[i].used && w.slots[i].name in w.disk
    requires w.slots[i].external && w.slots[i].pidfd >= 0 && !Alive(w, i)
    ensures var w', n := SweepExternal(w, i), w.slots[i].name;
      && |w'.slots| == |w.slots| && w'.slots[i].used && w'.slots[i].name == n && w'.slots[i].pid == 0
      && !w'.slots[i].external && Fds(w'.slots[i]) == {} && w'.open == w.open - Fds(w.slots[i])
      && w'.disk == w.disk[n := w.disk[n].(status := Stopped)]
    ensures w.slots[i].pid > 0 ==> AfterExternal(w, w.slots[i].name) == SweepExternal(w, i)
  {
    assert FindByName(w.slots, w.slots[i].name) == i;
  }

  /** When the directory of an agent is gone, its slot is given up, unless it has a process. */
  lemma ForgetFrees(w: World, name: string)
    requires Core(w)
    ensures var w', i := Forget(w, name), FindByName(w.slots, name);
      FindByName(w'.slots, name) >= 0 <==> i >= 0 && w.slots[i].pid > 0
  {
    var i := FindByName(w.slots, name);
    if i >= 0 && w.slots[i].pid == 0 {
      var w' := Release(w, i);
      assert forall j :: 0 <= j < |w'.slots| && j != i ==> w'.slots[j] == w.slots[j];
    }
  }

  // ----- commands -------------------------------------------------------

  /** A start makes the agent wanted and enabled; if it has no process and there is a slot, it gets one with the failure
      count and the delay cleared, and otherwise none is created. */
  lemma StartStarts(w: World, name: string, sp: Spawn)
    requires Core(w) && |name| <= SLOT_NAME_MAX && SpawnLegal(w, sp) && KnownAgent(w, name)
    ensures var w' := Start(w, name, sp);
      && WantsRunning(w'.disk, name)
      && (NothingRuns(w, name) && AllocIndex(w.slots, name) >= 0 ==>
            var i := FindByName(w'.slots, name);
            && i >= 0 && w'.slots[i].failures == 0 && w'.slots[i].nextRestartAt == 0
            && (sp.Forked? ==> Runs(w', name, sp.pid) && w'.procs[sp.pid] == Process(name, true, false, false))
            && (sp.SpawnFailed? ==> w'.procs == w.procs))
      && (!NothingRuns(w, name) || AllocIndex(w.slots, name) < 0 ==> w'.procs == w.procs && w'.slots == w.slots)
  {
    var w1 := StartSettings(w, name);
    StartSettingsWant(w, name);
    CoreFrame(w, w1);
    AllocKeeps(w1, name);
    var i, w2 := AllocIndex(w1.slots, name), Alloc(w1, name);
    if i >= 0 && !Alive(w2, i) {
      var w3 := ClearBackoff(w2, i);
      CoreSameRuntime(w2, w3, i);
      if sp.Forked? { SpawnRuns(w3, i, sp); } else { assert FindByName(w3.slots, name) == i; }
    }
  }

  /** A stop leaves the agent unwanted, with its process gone or sent SIGKILL. */
  lemma StopStops(w: World, name: string, script: seq<seq<Env>>, pid: nat)
    requires Core(w) && KnownAgent(w, name) && Runs(w, name, pid)
    ensures var w' := Stop(w, name, script); pid in w'.procs ==> w'.procs[pid].killed
    ensures ScriptLeavesStopped(script, name) ==> !Get(Stop(w, name, script).disk, name).desired
  {
    var w1 := SetDesired(w, name, false);
    CoreFrame(w, w1);
    StopKills(w1, FindByName(w1.slots, name), script);
    if ScriptLeavesStopped(script, name) { StopLoopStopped(w1, FindByName(w1.slots, name), script, name); }
  }

  /** A restart of an agent that has a slot, and that nobody removes meanwhile, ends with the old process gone or sent
      SIGKILL and the new one in its place, with its failure count and delay cleared. */
  lemma RestartRestarts(w: World, name: string, script: seq<seq<Env>>, sp: Spawn, pid: nat)
    requires Core(w) && |name| <= SLOT_NAME_MAX && KnownAgent(w, name) && Runs(w, name, pid)
    requires KnownAgent(Stop(w, name, script), name) && SpawnLegal(Stop(w, name, script), sp) && sp.Forked?
    ensures var w' := Restart(w, name, script, sp);
      var i := FindByName(w'.slots, name);
      && Runs(w', name, sp.pid) && WantsRunning(w'.disk, name)
      && w'.slots[i].failures == 0 && w'.slots[i].nextRestartAt == 0
      && (pid in w'.procs && pid != sp.pid ==> w'.procs[pid].killed)
  {
    var w1, i := Stop(w, name, script), FindByName(w.slots, name);
    StopStops(w, name, script, pid);
    StopKeeps(w, name, script);
    StopFreesSlot(w, name, script);
    StartStarts(w1, name, sp);
    if pid != sp.pid { StartOnlyAdds(w1, name, sp, pid); }
  }

  lemma StopFreesSlot(w: World, name: string, script: seq<seq<Env>>)
    requires Core(w) && KnownAgent(w, name) && FindByName(w.slots, name) >= 0
    ensures var w1 := Stop(w, name, script); NothingRuns(w1, name) && AllocIndex(w1.slots, name) >= 0
  {
    var w0 := SetDesired(w, name, false);
    var i := FindByName(w0.slots, name);
    CoreFrame(w, w0);
    StopAgentKeeps(w0, i, script);
    StopLoopSlot(w0, i, script);
    assert !Stop(w, name, script).slots[i].used;
  }

  lemma StartOnlyAdds(w: World, name: string, sp: Spawn, pid: nat)
    requires sp.Forked? && pid != sp.pid
    ensures var w' := Start(w, name, sp); pid in w'.procs ==> pid in w.procs && w'.procs[pid] == w.procs[pid]
  {
  }
}
