/** The recovery scan at startup, and the two limits of the slot table: 32 slots, 63-byte names. */
module SupervisorBoot {
  import opened AgentNames
  import opened SupervisorModel
  import opened SupervisorSafety
  import opened SupervisorRestart

  /** One call of the recovery callback: the agent, the outcome of a fork should one be tried,
      and the pidfd and restart count read should a runtime be found. */
  datatype Call = Call(name: string, sp: Spawn, pidfd: int, count: int)

  function RecoverCall(w: World, c: Call): World {
    Recover(w, c.name, c.sp, c.pidfd, c.count)
  }

  function Boot(w: World, calls: seq<Call>): World
    decreases |calls|
  {
    if calls == [] then w else Boot(RecoverCall(w, calls[0]), calls[1..])
  }

  /** The world the callback forks in, when it forks. */
  function Forking(w: World, c: Call): World {
    Alloc(w.(disk := Put(w.disk, c.name, Get(w.disk, c.name).(pidFile := 0))), c.name)
  }

  /** A free slot for every runtime that is found. */
  predicate Fits(w: World, c: Call) {
    PidFileLive(w, c.name) ==> AllocIndex(w.slots, c.name) >= 0
  }

  /** Forks return unused identities, and a pidfd opened for a found runtime is an unused descriptor. */
  predicate RecoverLegal(w: World, c: Call) {
    && SpawnLegal(Forking(w, c), c.sp)
    && (PidFileLive(w, c.name) ==> c.pidfd >= -1 && c.pidfd !in w.open)
  }

  predicate BootLegal(w: World, calls: seq<Call>)
    decreases |calls|
  {
    calls == [] || (RecoverLegal(w, calls[0]) && BootLegal(RecoverCall(w, calls[0]), calls[1..]))
  }

  predicate BootFits(w: World, calls: seq<Call>)
    decreases |calls|
  {
    calls == [] || (Fits(w, calls[0]) && BootFits(RecoverCall(w, calls[0]), calls[1..]))
  }

  ghost predicate DistinctCalls(calls: seq<Call>) {
    && (forall k :: 0 <= k < |calls| ==> |calls[k].name| <= SLOT_NAME_MAX)
    && (forall k, l :: 0 <= k < l < |calls| ==> calls[k].name != calls[l].name)
  }

  ghost function Names(calls: seq<Call>): set<string> {
    set k | 0 <= k < |calls| :: calls[k].name
  }

  /** The agents still to be visited, and what the disk says of them: the pid file of an agent
      names its runtime if it has one, and no other agent's. */
  ghost predicate Roster(w: World, pending: set<string>) {
    && (forall i :: 0 <= i < |w.slots| && w.slots[i].used ==> w.slots[i].name !in pending)
    && (forall p :: p in w.procs && w.procs[p].agent in pending ==>
          var q := w.procs[p]; Get(w.disk, q.agent).pidFile == p && !q.child && !q.killed && !q.exited)
    && (forall n :: n in pending ==> Get(w.disk, n).pidFile == 0 || Get(w.disk, n).pidFile in w.everPids)
    && (forall n :: n in pending && PidFileLive(w, n) ==> w.procs[Get(w.disk, n).pidFile].agent == n)
  }

  /** What is left of the invariant once the runtimes of pending agents are disregarded. */
  function Mask(w: World, pending: set<string>): World {
    w.(procs := map p | p in w.procs ::
                  if w.procs[p].agent in pending then w.procs[p].(killed := true) else w.procs[p])
  }

  ghost predicate Booting(w: World, pending: set<string>) {
    Core(Mask(w, pending)) && Books(w) && Roster(w, pending)
  }

  /** Agentd starts with an empty table; the runtimes it finds are not its children. */
  ghost predicate JustStarted(w: World, pending: set<string>) {
    && |w.slots| == MAX_MANAGED && (forall i :: 0 <= i < |w.slots| ==> w.slots[i] == FREE)
    && w.waitq == [] && w.log == [] && w.open == {}
    && w.procs.Keys <= w.everPids && 0 !in w.everPids
    && (forall p :: p in w.procs ==> w.procs[p].agent in pending)
    && Roster(w, pending)
  }

  lemma StartBooting(w: World, pending: set<string>)
    requires JustStarted(w, pending)
    ensures Booting(w, pending)
  {
  }

  lemma MaskAlloc(w: World, pending: set<string>, name: string)
    ensures Alloc(Mask(w, pending), name) == Mask(Alloc(w, name), pending)
  {
    assert Alloc(w, name).procs == w.procs;
    assert Mask(Alloc(w, name), pending).procs == Mask(w, pending).procs;
  }

  /** A found runtime moves from the pending agents to the slot that adopts it. */
  lemma AdoptKeeps(w: World, pending: set<string>, n: string, i: nat, pidfd: int, count: int)
    requires Core(Mask(w, pending)) && n in pending && PidFileLive(w, n)
    requires i < |w.slots| && w.slots[i] == FreshSlot(n) && |n| <= SLOT_NAME_MAX
    requires forall p :: p in w.procs && w.procs[p].agent == n ==> p == Get(w.disk, n).pidFile && !w.procs[p].child
    requires w.procs[Get(w.disk, n).pidFile].agent == n
    requires forall j :: 0 <= j < |w.slots| && j != i && w.slots[j].used ==> w.slots[j].name != n
    ensures Core(Mask(RecoverAdopt(w, i, Get(w.disk, n).pidFile, pidfd, count), pending - {n}))
  {
    var p0 := Get(w.disk, n).pidFile;
    var m, m' := Mask(w, pending), Mask(RecoverAdopt(w, i, p0, pidfd, count), pending - {n});
    forall j | 0 <= j < |m'.slots| ensures Describes(m'.slots[j], m'.procs, m'.everPids) {
      assert Describes(m.slots[j], m.procs, m.everPids);
    }
    forall p | p in m'.procs && !m'.procs[p].killed
      ensures exists k :: 0 <= k < |m'.slots| && Holds(m'.slots[k], p)
    {
      if w.procs[p].agent == n {
        assert Holds(m'.slots[i], p);
      } else {
        assert p in m.procs && !m.procs[p].killed;
        var k :| 0 <= k < |m.slots| && Holds(m.slots[k], p);
        assert k != i && Holds(m'.slots[k], p);
      }
    }
  }

  lemma AdoptBooks(w: World, n: string, i: nat, pid: nat, pidfd: int, count: int)
    requires Books(w) && i < |w.slots| && w.slots[i] == FreshSlot(n) && |n| <= SLOT_NAME_MAX
    requires Tallied(w.log, n) == Tally(0, 0, true)
    ensures Books(RecoverAdopt(w, i, pid, pidfd, count))
  {
    var w' := RecoverAdopt(w, i, pid, pidfd, count);
    forall j | 0 <= j < |w'.slots| && w'.slots[j].used ensures Booked(w'.slots[j], w'.disk, w'.log) {
      assert Booked(w.slots[j], w.disk, w.log);
    }
  }

  /** A pending agent gets a slot of its own. */
  lemma AllocPending(w: World, pending: set<string>, n: string)
    requires Core(Mask(w, pending)) && Books(w) && |n| <= SLOT_NAME_MAX
    requires forall i :: 0 <= i < |w.slots| && w.slots[i].used ==> w.slots[i].name != n
    requires AllocIndex(w.slots, n) >= 0
    ensures var w1, i := Alloc(w, n), AllocIndex(w.slots, n);
      && Core(Mask(w1, pending)) && Books(w1)
      && w1 == Note(w.(slots := w.slots[i := FreshSlot(n)]), Allocated(n))
      && Tallied(w1.log, n) == Tally(0, 0, true)
  {
    var m := Mask(w, pending);
    MaskAlloc(w, pending, n);
    AllocKeeps(m, n);
    AllocBooks(m, n);
    NoteStep(w.log, Allocated(n), n);
  }

  lemma RecoverLiveKeeps(w: World, pending: set<string>, c: Call)
    requires Booting(w, pending) && c.name in pending && |c.name| <= SLOT_NAME_MAX
    requires PidFileLive(w, c.name) && AllocIndex(w.slots, c.name) >= 0
    ensures Booting(RecoverCall(w, c), pending - {c.name})
  {
    var n, i := c.name, AllocIndex(w.slots, c.name);
    AllocPending(w, pending, n);
    var w1 := Alloc(w, n);
    AdoptKeeps(w1, pending, n, i, c.pidfd, c.count);
    AdoptBooks(w1, n, i, Get(w.disk, n).pidFile, c.pidfd, c.count);
  }

  /** An agent without a runtime can be taken off the list. */
  lemma NoRuntime(w: World, pending: set<string>, n: string)
    requires Booting(w, pending) && n in pending && !PidFileLive(w, n)
    ensures var w1 := w.(disk := Put(w.disk, n, Get(w.disk, n).(pidFile := 0)));
      && Booting(w1, pending - {n})
      && (forall i :: 0 <= i < |w1.slots| && w1.slots[i].used ==> w1.slots[i].name != n)
  {
    var w1 := w.(disk := Put(w.disk, n, Get(w.disk, n).(pidFile := 0)));
    forall p | p in w.procs ensures w.procs[p].agent != n {
      assert p in Mask(w, pending).procs;
    }
    assert Mask(w1, pending - {n}).procs == Mask(w, pending).procs;
    CoreFrame(Mask(w, pending), Mask(w1, pending - {n}));
    BooksQuiet(w, w1);
  }

  lemma SpawnPending(w: World, pending: set<string>, i: nat, sp: Spawn)
    requires Core(Mask(w, pending)) && Books(w) && i < |w.slots| && w.slots[i].used && w.slots[i].pid == 0
    requires SpawnLegal(w, sp) && w.slots[i].name !in pending && WantsRunning(w.disk, w.slots[i].name)
    ensures Core(Mask(DoSpawn(w, i, sp), pending)) && Books(DoSpawn(w, i, sp))
  {
    var m := Mask(w, pending);
    SpawnKeeps(m, i, sp);
    SpawnBooks(m, i, sp);
    assert DoSpawn(m, i, sp).procs == Mask(DoSpawn(w, i, sp), pending).procs;
  }

  lemma ReleasePending(w: World, pending: set<string>, i: nat)
    requires Core(Mask(w, pending)) && Books(w) && i < |w.slots| && w.slots[i].pid == 0
    ensures Core(Mask(Release(w, i), pending)) && Books(Release(w, i))
  {
    ReleaseKeeps(Mask(w, pending), i);
    ReleaseBooks(w, i);
    assert Release(Mask(w, pending), i) == Mask(Release(w, i), pending);
  }

  lemma SpawnRoster(w: World, pending: set<string>, i: nat, sp: Spawn)
    requires Roster(w, pending) && i < |w.slots| && SpawnLegal(w, sp) && w.slots[i].name !in pending
    ensures Roster(DoSpawn(w, i, sp), pending)
  {
    var w' := DoSpawn(w, i, sp);
    assert forall n :: n in pending ==> Get(w'.disk, n) == Get(w.disk, n);
  }

  lemma RecoverDeadKeeps(w: World, pending: set<string>, c: Call)
    requires Booting(w, pending) && c.name in pending && |c.name| <= SLOT_NAME_MAX
    requires !PidFileLive(w, c.name) && SpawnLegal(Forking(w, c), c.sp)
    ensures Booting(RecoverCall(w, c), pending - {c.name})
  {
    var n := c.name;
    var w1 := w.(disk := Put(w.disk, n, Get(w.disk, n).(pidFile := 0)));
    NoRuntime(w, pending, n);
    var i := AllocIndex(w1.slots, n);
    if WantsRunning(w1.disk, n) && i >= 0 {
      AllocPending(w1, pending - {n}, n);
      var w2 := Alloc(w1, n);
      assert w2 == Forking(w, c);
      assert w2.slots[i].name in w2.disk;
      if c.sp.SpawnFailed? {
        ReleasePending(w2, pending - {n}, i);
      } else {
        SpawnPending(w2, pending - {n}, i, c.sp);
        SpawnRoster(w2, pending - {n}, i, c.sp);
      }
    }
  }

  lemma RecoverKeeps(w: World, calls: seq<Call>)
    requires calls != [] && Booting(w, Names(calls)) && DistinctCalls(calls)
    requires RecoverLegal(w, calls[0]) && Fits(w, calls[0])
    ensures Booting(RecoverCall(w, calls[0]), Names(calls[1..])) && DistinctCalls(calls[1..])
  {
    var c, rest := calls[0], calls[1..];
    assert Names(rest) == Names(calls) - {c.name} by {
      assert forall k :: 0 <= k < |rest| ==> rest[k] == calls[k + 1];
      forall n | n in Names(calls) - {c.name} ensures n in Names(rest) {
        var k :| 0 <= k < |calls| && calls[k].name == n;
        assert rest[k - 1].name == n;
      }
    }
    assert c.name in Names(calls);
    if PidFileLive(w, c.name) { RecoverLiveKeeps(w, Names(calls), c); } else { RecoverDeadKeeps(w, Names(calls), c); }
  }

  lemma {:induction false} BootKeeps(w: World, calls: seq<Call>)
    requires Booting(w, Names(calls)) && DistinctCalls(calls) && BootLegal(w, calls) && BootFits(w, calls)
    ensures Core(Boot(w, calls)) && Books(Boot(w, calls))
    decreases |calls|
  {
    if calls == [] {
      assert Mask(w, Names(calls)) == w;
    } else {
      RecoverKeeps(w, calls);
      BootKeeps(RecoverCall(w, calls[0]), calls[1..]);
    }
  }

  /** From startup on: if the scan visits every agent that has a runtime and never meets a full
      table at one, then in every later run each agent has at most one runtime, held by its slot. */
  lemma OneRuntimeFromBoot(w: World, calls: seq<Call>, steps: seq<Step>)
    requires JustStarted(w, Names(calls)) && DistinctCalls(calls) && BootLegal(w, calls) && BootFits(w, calls)
    requires LegalRun(Boot(w, calls), steps) && NamesFit(steps)
    ensures var w' := Run(Boot(w, calls), steps);
      && OneRuntimePerAgent(w') && NamesDistinct(w'.slots) && PidsDistinct(w'.slots)
      && IdleHoldsNothing(w'.slots) && Books(w')
  {
    StartBooting(w, Names(calls));
    BootKeeps(w, calls);
    OneRuntimeInEveryRun(Boot(w, calls), steps);
    RunBooks(Boot(w, calls), steps);
  }

  /** A runtime found by the scan is held afterwards exactly when the table had room for it. */
  lemma RecoveryDropsIffFull(w: World, pending: set<string>, c: Call)
    requires Booting(w, pending) && c.name in pending && |c.name| <= SLOT_NAME_MAX && PidFileLive(w, c.name)
    ensures var p, slots := Get(w.disk, c.name).pidFile, RecoverCall(w, c).slots;
      (exists i :: 0 <= i < |slots| && Holds(slots[i], p)) <==> AllocIndex(w.slots, c.name) >= 0
  {
    var p, w' := Get(w.disk, c.name).pidFile, RecoverCall(w, c);
    if AllocIndex(w.slots, c.name) >= 0 {
      assert Holds(w'.slots[AllocIndex(w.slots, c.name)], p);
    } else {
      var m := Mask(w, pending);
      forall i | 0 <= i < |w'.slots| ensures !Holds(w'.slots[i], p) {
        assert Describes(m.slots[i], m.procs, m.everPids);
      }
    }
  }

  // ----- the size of the table ------------------------------------------

  function UsedSlots(slots: seq<Slot>): nat {
    if slots == [] then 0 else (if slots[0].used then 1 else 0) + UsedSlots(slots[1..])
  }

  lemma UsedUpdate(slots: seq<Slot>, i: nat, s: Slot)
    requires i < |slots|
    ensures UsedSlots(slots[i := s]) == UsedSlots(slots) + (if s.used then 1 else 0) - (if slots[i].used then 1 else 0)
  {
    if i > 0 {
      UsedUpdate(slots[1..], i - 1, s);
      assert slots[i := s][1..] == slots[1..][i - 1 := s];
    } else {
      assert slots[i := s][1..] == slots[1..];
    }
  }

  lemma UsedFull(slots: seq<Slot>)
    requires forall i :: 0 <= i < |slots| ==> slots[i].used
    ensures UsedSlots(slots) == |slots|
  {
  }

  lemma UsedNone(slots: seq<Slot>)
    requires forall i :: 0 <= i < |slots| ==> slots[i] == FREE
    ensures UsedSlots(slots) == 0
  {
  }

  lemma RecoverUsesOne(w: World, c: Call)
    ensures |RecoverCall(w, c).slots| == |w.slots| && UsedSlots(RecoverCall(w, c).slots) <= UsedSlots(w.slots) + 1
  {
    var i := AllocIndex(w.slots, c.name);
    if i >= 0 {
      var a := Alloc(w, c.name).slots;
      if !w.slots[i].used { UsedUpdate(w.slots, i, FreshSlot(c.name)); }
      UsedUpdate(a, i, RecoverCall(w, c).slots[i]);
      if RecoverCall(w, c).slots != w.slots {
        assert RecoverCall(w, c).slots == a[i := RecoverCall(w, c).slots[i]];
      }
    }
  }

  lemma {:induction false} FreeSlotsSuffice(w: World, calls: seq<Call>)
    requires UsedSlots(w.slots) + |calls| <= |w.slots|
    ensures BootFits(w, calls)
    decreases |calls|
  {
    if calls != [] {
      if AllocIndex(w.slots, calls[0].name) < 0 {
        UsedFull(w.slots);
        assert false;
      }
      RecoverUsesOne(w, calls[0]);
      FreeSlotsSuffice(RecoverCall(w, calls[0]), calls[1..]);
    }
  }

  /** Up to 32 agents on disk, the scan at startup always fits. */
  lemma ThirtyTwoAgentsFit(w: World, calls: seq<Call>)
    requires JustStarted(w, Names(calls)) && |calls| <= MAX_MANAGED
    ensures BootFits(w, calls)
  {
    UsedNone(w.slots);
    FreeSlotsSuffice(w, calls);
  }

  // ----- the length of a name -------------------------------------------

  /** A slot can be found again under the name it was created for exactly when that name fits. */
  lemma SlotFoundAgainIffNameFits(w: World, name: string)
    requires Core(w) && AllocIndex(w.slots, name) >= 0
    ensures FindByName(Alloc(w, name).slots, name) >= 0 <==> |name| <= SLOT_NAME_MAX
  {
    var w' := Alloc(w, name);
    if |name| > SLOT_NAME_MAX {
      forall j | 0 <= j < |w'.slots| && w'.slots[j].used ensures w'.slots[j].name != name {
        assert Describes(w.slots[j], w.procs, w.everPids);
      }
    } else {
      AllocKeeps(w, name);
      assert w'.slots[AllocIndex(w.slots, name)].name == name;
    }
  }

  predicate ShortNames(slots: seq<Slot>) {
    forall i :: 0 <= i < |slots| && slots[i].used ==> |slots[i].name| <= SLOT_NAME_MAX
  }

  /** A start under a 64-byte name, which validate_name admits: it finds no slot and takes a new one. */
  lemma StartLongAllocates(w: World, name: string, sp: Spawn)
    requires KnownAgent(w, name) && |name| == MAX_NAME && ShortNames(w.slots) && FindFree(w.slots, 0) >= 0
    ensures var i, w2 := FindFree(w.slots, 0), Alloc(StartSettings(w, name), name);
      && w2.slots == w.slots[i := FreshSlot(name)] && w2.procs == w.procs && w2.everPids == w.everPids
      && w2.disk.Keys == w.disk.Keys && Start(w, name, sp) == TrySpawn(ClearBackoff(w2, i), i, sp)
  {
    var w1 := StartSettings(w, name);
    assert FindByName(w1.slots, name) < 0;
  }

  /** So it takes a slot of its own every time, and makes a process only if the name cut to
      63 bytes is an agent too. */
  lemma StartLong(w: World, name: string, sp: Spawn)
    requires KnownAgent(w, name) && |name| == MAX_NAME && ShortNames(w.slots) && FindFree(w.slots, 0) >= 0
    ensures var w' := Start(w, name, sp);
      && KnownAgent(w', name) && ShortNames(w'.slots) && |w'.slots| == |w.slots|
      && UsedSlots(w'.slots) == UsedSlots(w.slots) + 1 && w'.disk.Keys == w.disk.Keys
      && (sp.Forked? && SlotName(name) in w.disk ==>
            sp.pid in w'.everPids && w'.procs == w.procs[sp.pid := Process(SlotName(name), true, false, false)])
      && (sp.SpawnFailed? || SlotName(name) !in w.disk ==> w'.procs == w.procs && w'.everPids == w.everPids)
  {
    hide Start, Alloc, StartSettings, FindByName, ValidName;
    StartLongAllocates(w, name, sp);
    var i, w' := FindFree(w.slots, 0), Start(w, name, sp);
    UsedUpdate(w.slots, i, w'.slots[i]);
    assert w'.slots == w.slots[i := w'.slots[i]];
  }

  /** Two runtimes of one agent, neither sent SIGKILL. */
  ghost predicate TwoRuntimes(w: World, agent: string) {
    exists p, q :: p in w.procs && q in w.procs && p != q && w.procs[p].agent == w.procs[q].agent == agent
      && !w.procs[p].killed && !w.procs[q].killed
  }

  /** So a 64-byte name breaks the theorem, exactly when its first 63 bytes name an agent:
      starting it twice then leaves two runtimes of that agent. */
  lemma LongNameStartsTwice(w: World, name: string, sp1: Spawn, sp2: Spawn)
    requires Core(w) && KnownAgent(w, name) && |name| == MAX_NAME
    requires sp1.Forked? && sp2.Forked? && SpawnLegal(w, sp1) && SpawnLegal(Start(w, name, sp1), sp2)
    requires FindFree(w.slots, 0) >= 0 && FindFree(Start(w, name, sp1).slots, 0) >= 0
    ensures var w' := Start(Start(w, name, sp1), name, sp2);
      && (TwoRuntimes(w', SlotName(name)) <==> SlotName(name) in w.disk)
      && (SlotName(name) in w.disk ==> !OneRuntimePerAgent(w'))
  {
    forall i | 0 <= i < |w.slots| && w.slots[i].used ensures |w.slots[i].name| <= SLOT_NAME_MAX {
      assert Describes(w.slots[i], w.procs, w.everPids);
    }
    CoreMeansOneRuntime(w);
    StartLong(w, name, sp1);
    var w1 := Start(w, name, sp1);
    StartLong(w1, name, sp2);
    var w2 := Start(w1, name, sp2);
    if SlotName(name) in w.disk {
      assert w2.procs[sp1.pid].agent == w2.procs[sp2.pid].agent && sp1.pid != sp2.pid;
    }
  }

  function StartAll(w: World, name: string, sps: seq<Spawn>): World
    decreases |sps|
  {
    if sps == [] then w else StartAll(Start(w, name, sps[0]), name, sps[1..])
  }

  /** Whether or not a process comes of it, every start of such a name takes one more slot, and
      so as many starts as there are free slots fill the table. */
  lemma {:induction false} LongNameFillsTable(w: World, name: string, sps: seq<Spawn>)
    requires KnownAgent(w, name) && |name| == MAX_NAME && ShortNames(w.slots)
    requires UsedSlots(w.slots) + |sps| <= |w.slots|
    ensures UsedSlots(StartAll(w, name, sps).slots) == UsedSlots(w.slots) + |sps|
    ensures UsedSlots(w.slots) + |sps| == |w.slots| ==> FindFree(StartAll(w, name, sps).slots, 0) < 0
    decreases |sps|
  {
    if sps == [] {
      UsedBelow(w.slots);
    } else {
      if FindFree(w.slots, 0) < 0 { UsedFull(w.slots); }
      StartLong(w, name, sps[0]);
      LongNameFillsTable(Start(w, name, sps[0]), name, sps[1..]);
    }
  }

  lemma UsedBelow(slots: seq<Slot>)
    ensures UsedSlots(slots) <= |slots|
    ensures UsedSlots(slots) == |slots| ==> forall i :: 0 <= i < |slots| ==> slots[i].used
  {
  }
}
