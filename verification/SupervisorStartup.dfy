/** What the recovery scan shares with the steps that follow it: it spawns only what is wanted, and it loses no
    descriptor. So the theorems about every step hold from the start of agentd on. */
module SupervisorStartup {
  import opened SupervisorModel
  import opened SupervisorSafety
  import opened SupervisorRestart
  import opened SupervisorRuns
  import opened SupervisorStops
  import opened SupervisorDescriptors
  import opened SupervisorBoot
  import opened SupervisorEffects

  // ----- spawns ---------------------------------------------------------

  /** The scan writes pid files and nothing else that an operator could set. */
  lemma RecoverKeepsWants(w: World, c: Call, name: string)
    ensures WantsRunning(RecoverCall(w, c).disk, name) == WantsRunning(w.disk, name)
  {
  }

  lemma RecoverSpawnsWanted(w: World, pending: set<string>, c: Call)
    requires Booting(w, pending) && c.name in pending && |c.name| <= SLOT_NAME_MAX && RecoverLegal(w, c)
    ensures Evolves(w, RecoverCall(w, c)) && SpawnsWanted(w, RecoverCall(w, c))
  {
    if !PidFileLive(w, c.name) {
      NoRuntime(w, pending, c.name);
      var w1 := w.(disk := Put(w.disk, c.name, Get(w.disk, c.name).(pidFile := 0)));
      var i := AllocIndex(w1.slots, c.name);
      if WantsRunning(w1.disk, c.name) && i >= 0 {
        AllocPending(w1, pending - {c.name}, c.name);
        SpawnEvolves(Alloc(w1, c.name), i, c.sp);
      }
    }
  }

  lemma SpawnsCompose(w: World, w1: World, w2: World)
    requires Evolves(w, w1) && SpawnsWanted(w, w1) && Evolves(w1, w2) && SpawnsWanted(w1, w2)
    requires w1.procs.Keys <= w1.everPids
    requires forall n :: WantsRunning(w2.disk, n) == WantsRunning(w1.disk, n)
    ensures Evolves(w, w2) && SpawnsWanted(w, w2)
  {
  }

  /** Every process the scan creates is the runtime of an agent with enabled=yes and desired_state=running. */
  lemma {:induction false} BootSpawnsWanted(w: World, calls: seq<Call>)
    requires Booting(w, Names(calls)) && DistinctCalls(calls) && BootLegal(w, calls) && BootFits(w, calls)
    ensures Evolves(w, Boot(w, calls)) && SpawnsWanted(w, Boot(w, calls))
    ensures forall n :: WantsRunning(Boot(w, calls).disk, n) == WantsRunning(w.disk, n)
    decreases |calls|
  {
    if calls != [] {
      var w1 := RecoverCall(w, calls[0]);
      RecoverKeeps(w, calls);
      RecoverSpawnsWanted(w, Names(calls), calls[0]);
      forall n ensures WantsRunning(w1.disk, n) == WantsRunning(w.disk, n) { RecoverKeepsWants(w, calls[0], n); }
      BootSpawnsWanted(w1, calls[1..]);
      assert w1.procs.Keys == Mask(w1, Names(calls[1..])).procs.Keys;
      SpawnsCompose(w, w1, Boot(w, calls));
    }
  }

  /** What the scan does with one agent: a runtime that is alive is adopted if there is a slot; otherwise the pid file
      is cleared, and a wanted agent is started if there is a slot, which is given up again when the fork fails. */
  lemma RecoverActs(w: World, pending: set<string>, c: Call)
    requires Booting(w, pending) && c.name in pending && |c.name| <= SLOT_NAME_MAX && RecoverLegal(w, c)
    ensures var w', n, i := RecoverCall(w, c), c.name, FindByName(RecoverCall(w, c).slots, c.name);
      if PidFileLive(w, n) then
        AllocIndex(w.slots, n) >= 0 ==>
          && Runs(w', n, Get(w.disk, n).pidFile) && w'.slots[i].external && w'.slots[i].pidfd == c.pidfd
          && w'.slots[i].restartCount == c.count && w'.disk == w.disk && w'.procs == w.procs
      else if WantsRunning(w.disk, n) && AllocIndex(w.slots, n) >= 0 && c.sp.Forked? then
        Runs(w', n, c.sp.pid) && w'.procs[c.sp.pid] == Process(n, true, false, false)
      else
        i < 0 && w'.procs == w.procs && Get(w'.disk, n) == Get(w.disk, n).(pidFile := 0)
  {
    hide Core, Books, Roster, Mask;
    var n, i := c.name, AllocIndex(w.slots, c.name);
    NoSlotYet(w, pending, n);
    if PidFileLive(w, n) {
      if i >= 0 {
        AllocPending(w, pending, n);
        NewSlotFound(w, Alloc(w, n).slots, RecoverCall(w, c).slots, i, n);
      }
    } else {
      NoRuntime(w, pending, n);
      var w1 := w.(disk := Put(w.disk, n, Get(w.disk, n).(pidFile := 0)));
      if WantsRunning(w1.disk, n) && i >= 0 {
        AllocPending(w1, pending - {n}, n);
        if c.sp.Forked? { NewSlotFound(w1, Alloc(w1, n).slots, RecoverCall(w, c).slots, i, n); }
      }
    }
  }

  lemma NoSlotYet(w: World, pending: set<string>, n: string)
    requires Roster(w, pending) && n in pending
    ensures forall i :: 0 <= i < |w.slots| && w.slots[i].used ==> w.slots[i].name != n
  {
  }

  lemma NewSlotFound(w: World, before: seq<Slot>, after: seq<Slot>, i: nat, n: string)
    requires i < |w.slots| && |after| == |before| == |w.slots| && before == w.slots[i := before[i]]
    requires after == before[i := after[i]] && after[i].used && after[i].name == n
    requires forall j :: 0 <= j < |w.slots| && w.slots[j].used && j != i ==> w.slots[j].name != n
    ensures FindByName(after, n) == i
  {
  }

  // ----- schedules ------------------------------------------------------

  lemma {:induction false} BootPending(w: World, calls: seq<Call>)
    requires Booting(w, Names(calls)) && DistinctCalls(calls) && BootLegal(w, calls) && BootFits(w, calls)
    requires NoPending(w.slots)
    ensures NoPending(Boot(w, calls).slots)
    decreases |calls|
  {
    if calls != [] {
      RecoverKeeps(w, calls);
      RecoverPending(w, Names(calls), calls[0]);
      BootPending(RecoverCall(w, calls[0]), calls[1..]);
    }
  }

  lemma RecoverPending(w: World, pending: set<string>, c: Call)
    requires Booting(w, pending) && c.name in pending && |c.name| <= SLOT_NAME_MAX && NoPending(w.slots)
    ensures NoPending(RecoverCall(w, c).slots)
  {
    hide Mask, Core;
    assert NoPending(Alloc(w, c.name).slots);
    if AllocIndex(w.slots, c.name) >= 0 { AllocPending(w, pending, c.name); }
  }

  /** From the start of agentd on, stopping a running agent schedules its restart exactly when its exit is reaped, in
      a round of the stop loop, while it calls for one. */
  lemma StopSchedulesFromBoot(w: World, calls: seq<Call>, steps: seq<Step>, i: nat, script: seq<seq<Env>>)
    requires JustStarted(w, Names(calls)) && DistinctCalls(calls) && BootLegal(w, calls) && BootFits(w, calls)
    requires LegalRun(Boot(w, calls), steps) && NamesFit(steps)
    requires var w1 := Run(Boot(w, calls), steps); i < |w1.slots| && w1.slots[i].used && Alive(w1, i)
    ensures var w1 := Run(Boot(w, calls), steps);
      var w2 := StopAgent(w1, i, script);
      |w2.slots| == |w1.slots| && (w2.slots[i].nextRestartAt > w2.now <==> StopSchedules(w1, i, script))
  {
    StartBooting(w, Names(calls));
    BootKeeps(w, calls);
    BootPending(w, calls);
    RunKeeps(Boot(w, calls), steps);
    RunPending(Boot(w, calls), steps);
    StopSchedulesExactly(Run(Boot(w, calls), steps), i, script);
  }

  // ----- descriptors ----------------------------------------------------

  /** A runtime is adopted into a slot that holds nothing yet. */
  lemma AdoptBalanced(w: World, i: nat, n: string, pid: nat, pidfd: int, count: int)
    requires Ledger(w) && i < |w.slots| && w.slots[i] == FreshSlot(n) && pidfd !in w.open
    ensures Balanced(w, RecoverAdopt(w, i, pid, pidfd, count))
  {
    SlotBalanced(w, RecoverAdopt(w, i, pid, pidfd, count), i);
  }

  lemma RecoverBalanced(w: World, pending: set<string>, c: Call)
    requires Booting(w, pending) && c.name in pending && |c.name| <= SLOT_NAME_MAX
    requires RecoverLegal(w, c) && Ledger(w)
    ensures Balanced(w, RecoverCall(w, c))
  {
    var n, i := c.name, AllocIndex(w.slots, c.name);
    if PidFileLive(w, n) {
      AllocBalanced(w, n);
      if i >= 0 {
        AllocPending(w, pending, n);
        AdoptBalanced(Alloc(w, n), i, n, Get(w.disk, n).pidFile, c.pidfd, c.count);
      }
    } else {
      NoRuntime(w, pending, n);
      var w1 := w.(disk := Put(w.disk, n, Get(w.disk, n).(pidFile := 0)));
      SameFdsBalanced(w, w1);
      AllocBalanced(w1, n);
      if WantsRunning(w1.disk, n) && i >= 0 {
        AllocPending(w1, pending - {n}, n);
        SpawnBalance(Alloc(w1, n), i, Outcome(Alloc(w1, n), i, c.sp));
        ReleaseBalanced(Alloc(w1, n), i);
      }
    }
  }

  lemma {:induction false} BootBalanced(w: World, calls: seq<Call>)
    requires Booting(w, Names(calls)) && DistinctCalls(calls) && BootLegal(w, calls) && BootFits(w, calls)
    requires Ledger(w) && NothingLeaked(w)
    ensures Ledger(Boot(w, calls)) && NothingLeaked(Boot(w, calls))
    decreases |calls|
  {
    if calls != [] {
      RecoverKeeps(w, calls);
      RecoverBalanced(w, Names(calls), calls[0]);
      BootBalanced(RecoverCall(w, calls[0]), calls[1..]);
    }
  }

  /** From the start of agentd on: every slot's descriptors are its own and open, and none is lost in a run in which
      no start hits the window between an adopted runtime's death and its cleanup. */
  lemma NothingLeaksFromBoot(w: World, calls: seq<Call>, steps: seq<Step>)
    requires JustStarted(w, Names(calls)) && DistinctCalls(calls) && BootLegal(w, calls) && BootFits(w, calls)
    requires LegalRun(Boot(w, calls), steps) && NamesFit(steps)
    ensures Ledger(Run(Boot(w, calls), steps))
    ensures NeverStartsOverPidfd(Boot(w, calls), steps) ==> NothingLeaked(Run(Boot(w, calls), steps))
  {
    StartBooting(w, Names(calls));
    BootKeeps(w, calls);
    BootBalanced(w, calls);
    RunLeaksNothing(Boot(w, calls), steps);
  }

  /** And the window is reached from there: agentd finds a runtime when it starts, the runtime dies, and the operator
      starts the agent before the main loop has looked at the pidfd. */
  lemma LeakAfterStartup(w: World, c: Call, e: Exit, sp: Spawn)
    requires JustStarted(w, Names([c])) && |c.name| <= SLOT_NAME_MAX && KnownAgent(w, c.name)
    requires PidFileLive(w, c.name) && c.pidfd >= 0 && RecoverLegal(w, c)
    requires sp.Forked? && SpawnLegal(Boot(w, [c]), sp)
    ensures var w1, steps := Boot(w, [c]), [Environment(Exits(Get(w.disk, c.name).pidFile, e)), StartStep(c.name, sp)];
      BootLegal(w, [c]) && BootFits(w, [c]) && LegalRun(w1, steps) && NamesFit(steps) && !NothingLeaked(Run(w1, steps))
  {
    hide Core, Ledger, NothingLeaked;
    var calls := [c];
    assert calls[1..] == [] && c.name in Names(calls);
    var w1 := RecoverCall(w, c);
    assert Boot(w1, []) == w1 && Boot(w, calls) == w1;
    ThirtyTwoAgentsFit(w, calls);
    assert BootLegal(w1, []) && BootLegal(w, calls);
    StartBooting(w, Names(calls));
    BootKeeps(w, calls);
    BootBalanced(w, calls);
    var i := AllocIndex(w.slots, c.name);
    DeadAdoptedRuntimeLeaksItsPidfd(w1, i, e, sp);
  }
}
