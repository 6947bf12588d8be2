/** The supervisor of agentd.c on values: the slot table, the per-agent settings on disk,
    the process table of the kernel, and one function per handler. The class in Agentd.dfy
    computes these functions in place; the lemmas about whole runs are stated over them.

    Time, process exits, edits of the settings and the outcome of a fork are chosen by the
    environment, and appear as parameters. */
module SupervisorModel {
  import opened AgentNames

  const MAX_MANAGED := 32
  const SLOT_NAME_MAX := 63           // bytes of struct managed's name, without its NUL
  const RESTART_STABLE_SEC := 30
  const RESTART_BACKOFF_MAX_SEC := 30
  const RESTART_BURST_LIMIT := 5
  const STOP_TIMEOUT_MS := 2000
  const STOP_POLL_MS := 50

  datatype Policy = Never | OnFailure | Always
  datatype Exit = Exited(code: nat) | Signaled(signum: nat)
  datatype Status = Stopped | Failed | Crashed | CrashLoop | Other(text: string)

  /** One entry of the table g_agents. A negative descriptor means "none". */
  datatype Slot = Slot(
    used: bool, name: string, pid: nat, pidfd: int, brokerFd: int, inboxFd: int,
    restartCount: int, failures: nat, lastStartedAt: nat, nextRestartAt: nat, external: bool)

  /** The files of one agent directory that the supervisor reads and writes.
      `enabled` is true when the file says yes or is missing. */
  datatype Settings = Settings(
    desired: bool, enabled: bool, policy: Policy, status: Status, pidFile: nat)

  /** A process: live while `exited` is false, a zombie of agentd afterwards. */
  datatype Process = Process(agent: string, child: bool, killed: bool, exited: bool)

  /** What the supervisor did, in order. The supervisor itself never reads it. */
  datatype Event =
    | Allocated(name: string)
    | OperatorStart(name: string)
    | Spawned(name: string)
    | Reaped(name: string, uptime: int, eligible: bool)
    | DesiredRunning(name: string)

  datatype Zombie = Zombie(pid: nat, exit: Exit)

  datatype World = World(
    slots: seq<Slot>,
    disk: map<string, Settings>,
    procs: map<nat, Process>,
    waitq: seq<Zombie>,
    now: nat,
    open: set<int>,
    everPids: set<nat>,
    log: seq<Event>)

  /** The image memset leaves: every descriptor field is 0, not -1. */
  const FREE := Slot(false, "", 0, 0, 0, 0, 0, 0, 0, 0, false)

  function SlotName(name: string): string {
    if |name| <= SLOT_NAME_MAX then name else name[..SLOT_NAME_MAX]
  }

  function FreshSlot(name: string): Slot {
    Slot(true, SlotName(name), 0, -1, -1, -1, 0, 0, 0, 0, false)
  }

  // ----- settings -------------------------------------------------------

  /** What the readers return for an agent, with the defaults for missing files. */
  function Get(disk: map<string, Settings>, name: string): Settings {
    if name in disk then disk[name] else Settings(false, true, OnFailure, Other(""), 0)
  }

  predicate WantsRunning(disk: map<string, Settings>, name: string) {
    Get(disk, name).enabled && Get(disk, name).desired
  }

  /** A write to a missing agent directory fails and is ignored. */
  function Put(disk: map<string, Settings>, name: string, s: Settings): map<string, Settings> {
    if name in disk then disk[name := s] else disk
  }

  function SetStatus(w: World, name: string, s: Status): World {
    w.(disk := Put(w.disk, name, Get(w.disk, name).(status := s)))
  }

  function SetDesired(w: World, name: string, b: bool): World {
    w.(disk := Put(w.disk, name, Get(w.disk, name).(desired := b)))
  }

  function SetEnabled(w: World, name: string): World {
    w.(disk := Put(w.disk, name, Get(w.disk, name).(enabled := true)))
  }

  function Note(w: World, e: Event): World {
    w.(log := w.log + [e])
  }

  // ----- slot helpers ---------------------------------------------------

  function FindName(slots: seq<Slot>, name: string, from: nat): (i: int)
    requires from <= |slots|
    ensures -1 <= i < |slots|
    ensures i >= 0 ==> from <= i && slots[i].used && slots[i].name == name
    ensures forall j :: from <= j < (if i < 0 then |slots| else i) ==> !(slots[j].used && slots[j].name == name)
    decreases |slots| - from
  {
    if from == |slots| then -1
    else if slots[from].used && slots[from].name == name then from
    else FindName(slots, name, from + 1)
  }

  function FindByName(slots: seq<Slot>, name: string): int {
    FindName(slots, name, 0)
  }

  function FindPid(slots: seq<Slot>, pid: nat, from: nat): (i: int)
    requires from <= |slots|
    ensures -1 <= i < |slots|
    ensures i >= 0 ==> from <= i && slots[i].used && slots[i].pid == pid
    ensures forall j :: from <= j < (if i < 0 then |slots| else i) ==> !(slots[j].used && slots[j].pid == pid)
    decreases |slots| - from
  {
    if from == |slots| then -1
    else if slots[from].used && slots[from].pid == pid then from
    else FindPid(slots, pid, from + 1)
  }

  function FindByPid(slots: seq<Slot>, pid: nat): int {
    if pid == 0 then -1 else FindPid(slots, pid, 0)
  }

  function FindFree(slots: seq<Slot>, from: nat): (i: int)
    requires from <= |slots|
    ensures -1 <= i < |slots|
    ensures i >= 0 ==> from <= i && !slots[i].used
    ensures forall j :: from <= j < (if i < 0 then |slots| else i) ==> slots[j].used
    decreases |slots| - from
  {
    if from == |slots| then -1
    else if !slots[from].used then from
    else FindFree(slots, from + 1)
  }

  predicate Named(s: Slot, name: string) { s.used && s.name == name }

  /** The slot of `name`, creating it if needed; -1 when the table is full. */
  function AllocIndex(slots: seq<Slot>, name: string): (i: int)
    ensures -1 <= i < |slots|
  {
    if FindByName(slots, name) >= 0 then FindByName(slots, name) else FindFree(slots, 0)
  }

  lemma AllocIndexIsFirst(slots: seq<Slot>, name: string)
    ensures var i := AllocIndex(slots, name);
      && (i >= 0 && slots[i].used ==> slots[i].name == name && forall j :: 0 <= j < i ==> !Named(slots[j], name))
      && (i >= 0 && !slots[i].used ==>
            forall j :: 0 <= j < |slots| ==> !Named(slots[j], name) && (j < i ==> slots[j].used))
      && (i < 0 <==> forall j :: 0 <= j < |slots| ==> slots[j].used && slots[j].name != name)
  {
  }

  function Alloc(w: World, name: string): World {
    var i := AllocIndex(w.slots, name);
    if i < 0 || w.slots[i].used then w
    else Note(w.(slots := w.slots[i := FreshSlot(name)]), Allocated(SlotName(name)))
  }

  function FdSet(fd: int): set<int> { if fd >= 0 then {fd} else {} }

  function Fds(s: Slot): set<int> {
    FdSet(s.pidfd) + FdSet(s.brokerFd) + FdSet(s.inboxFd)
  }

  function ClosedFd(fd: int): int { if fd >= 0 then -1 else fd }

  function ClearedSlot(s: Slot): Slot {
    s.(pidfd := ClosedFd(s.pidfd), brokerFd := ClosedFd(s.brokerFd), inboxFd := ClosedFd(s.inboxFd), pid := 0)
  }

  function Clear(w: World, i: nat): World
    requires i < |w.slots|
  {
    w.(slots := w.slots[i := ClearedSlot(w.slots[i])], open := w.open - Fds(w.slots[i]))
  }

  function Release(w: World, i: nat): World
    requires i < |w.slots|
  {
    w.(slots := w.slots[i := FREE], open := w.open - Fds(w.slots[i]))
  }

  predicate Alive(w: World, i: nat)
    requires i < |w.slots|
  {
    w.slots[i].pid > 0 && w.slots[i].pid in w.procs
  }

  // ----- start ----------------------------------------------------------

  /** The outcome of trying to fork a runtime. */
  datatype Spawn = SpawnFailed | Forked(pid: nat, pidfd: int, brokerFd: int, inboxFd: int)

  /** What the kernel guarantees of a fork: an unused pid, unused descriptors. */
  predicate SpawnLegal(w: World, sp: Spawn) {
    sp.Forked? ==>
      && sp.pid > 0 && sp.pid !in w.everPids
      && sp.brokerFd >= 0 && sp.inboxFd >= 0 && sp.pidfd >= -1
      && sp.brokerFd != sp.inboxFd && sp.pidfd != sp.brokerFd && sp.pidfd != sp.inboxFd
      && sp.pidfd !in w.open && sp.brokerFd !in w.open && sp.inboxFd !in w.open
  }

  function SpawnedSlot(s: Slot, now: nat, sp: Spawn): Slot
    requires sp.Forked?
  {
    s.(pid := sp.pid, external := false, lastStartedAt := now, nextRestartAt := 0,
       pidfd := sp.pidfd, brokerFd := sp.brokerFd, inboxFd := sp.inboxFd)
  }

  function SpawnFds(sp: Spawn): set<int>
    requires sp.Forked?
  {
    FdSet(sp.pidfd) + FdSet(sp.brokerFd) + FdSet(sp.inboxFd)
  }

  function DoSpawn(w: World, i: nat, sp: Spawn): World
    requires i < |w.slots|
  {
    match sp
    case SpawnFailed => w
    case Forked(pid, _, _, _) =>
      var s := w.slots[i];
      Note(w.(slots := w.slots[i := SpawnedSlot(s, w.now, sp)],
              open := w.open + SpawnFds(sp),
              procs := w.procs[pid := Process(s.name, true, false, false)],
              everPids := w.everPids + {pid},
              disk := Put(w.disk, s.name, Get(w.disk, s.name).(pidFile := pid))),
           Spawned(s.name))
  }

  /** The runtime is looked up under the name in the slot before anything is forked. */
  function Outcome(w: World, i: nat, sp: Spawn): Spawn
    requires i < |w.slots|
  {
    if w.slots[i].name in w.disk then sp else SpawnFailed
  }

  function TrySpawn(w: World, i: nat, sp: Spawn): World
    requires i < |w.slots|
  {
    DoSpawn(w, i, Outcome(w, i, sp))
  }

  // ----- the environment ------------------------------------------------

  datatype Env =
    | Tick(seconds: nat)
    | Exits(pid: nat, exit: Exit)
    | Configure(name: string, settings: Settings)
    | RemoveDir(name: string)

  /** An exiting child stays a zombie until waitpid returns it; another process just goes. */
  function ApplyEnv(w: World, e: Env): World {
    match e
    case Tick(d) => w.(now := w.now + d)
    case Exits(pid, exit) =>
      if pid !in w.procs || w.procs[pid].exited then w
      else if w.procs[pid].child then
        w.(procs := w.procs[pid := w.procs[pid].(exited := true)], waitq := w.waitq + [Zombie(pid, exit)])
      else w.(procs := w.procs - {pid})
    case Configure(name, s) =>
      var w1 := w.(disk := w.disk[name := s]);
      if s.desired then Note(w1, DesiredRunning(name)) else w1
    case RemoveDir(name) => w.(disk := w.disk - {name})
  }

  function ApplyAll(w: World, es: seq<Env>): World
    decreases |es|
  {
    if es == [] then w else ApplyAll(ApplyEnv(w, es[0]), es[1..])
  }

  // ----- reap + restart -------------------------------------------------

  function ExitStatus(e: Exit): Status {
    match e
    case Signaled(n) => if n != 0 then Crashed else Stopped
    case Exited(c) => if c == 0 then Stopped else Failed
  }

  predicate Failing(e: Exit) {
    match e
    case Signaled(n) => n != 0
    case Exited(c) => c != 0
  }

  predicate PolicyRestarts(p: Policy, e: Exit) {
    p == Always || (p == OnFailure && Failing(e))
  }

  function Uptime(s: Slot, now: nat): int {
    if s.lastStartedAt > 0 then now - s.lastStartedAt else 0
  }

  function FailuresAfter(s: Slot, now: nat): nat {
    (if Uptime(s, now) >= RESTART_STABLE_SEC then 0 else s.failures) + 1
  }

  function Pow2(k: nat): nat { if k == 0 then 1 else 2 * Pow2(k - 1) }

  function BackoffDelay(failures: nat): nat
    requires failures > 0
  {
    var shift := failures - 1;
    var delay := if shift >= 5 then RESTART_BACKOFF_MAX_SEC else Pow2(shift);
    if delay > RESTART_BACKOFF_MAX_SEC then RESTART_BACKOFF_MAX_SEC else delay
  }

  /** The decision after the exit of slot i's process has been recorded. */
  function Decide(w: World, i: nat, e: Exit, uptime: int, failures: nat): World
    requires i < |w.slots| && failures > 0
  {
    var name := w.slots[i].name;
    if !WantsRunning(w.disk, name) then Note(w, Reaped(name, uptime, false))
    else if !PolicyRestarts(Get(w.disk, name).policy, e) then
      Note(SetDesired(w, name, false), Reaped(name, uptime, false))
    else
      var s := w.slots[i].(failures := failures, restartCount := w.slots[i].restartCount + 1);
      if failures >= RESTART_BURST_LIMIT then
        Note(SetDesired(SetStatus(w.(slots := w.slots[i := s.(nextRestartAt := 0)]), name, CrashLoop), name, false),
             Reaped(name, uptime, true))
      else
        Note(w.(slots := w.slots[i := s.(nextRestartAt := w.now + BackoffDelay(failures))]),
             Reaped(name, uptime, true))
  }

  /** waitpid has returned `z`, which no longer is in the process table or the queue. */
  function HandleExit(w: World, z: Zombie): World {
    var i := FindByPid(w.slots, z.pid);
    if i < 0 then w
    else
      var s := w.slots[i];
      Decide(SetStatus(Clear(w, i), s.name, ExitStatus(z.exit)), i, z.exit, Uptime(s, w.now), FailuresAfter(s, w.now))
  }

  function ReapOne(w: World): World
    requires w.waitq != []
  {
    HandleExit(w.(waitq := w.waitq[1..], procs := w.procs - {w.waitq[0].pid}), w.waitq[0])
  }

  lemma DecideFrame(w: World, i: nat, e: Exit, uptime: int, failures: nat)
    requires i < |w.slots| && failures > 0
    ensures var w' := Decide(w, i, e, uptime, failures);
      && w'.waitq == w.waitq && w'.procs == w.procs && w'.now == w.now && w'.open == w.open
      && w'.everPids == w.everPids && |w'.slots| == |w.slots|
      && (forall j :: 0 <= j < |w.slots| && j != i ==> w'.slots[j] == w.slots[j])
      && w'.slots[i] == w.slots[i].(failures := w'.slots[i].failures, restartCount := w'.slots[i].restartCount,
                                    nextRestartAt := w'.slots[i].nextRestartAt)
  {
  }

  function ReapAll(w: World): World
    decreases |w.waitq|
  {
    if w.waitq == [] then w
    else
      assert |ReapOne(w).waitq| < |w.waitq| by { ReapOneQueue(w); }
      ReapAll(ReapOne(w))
  }

  lemma ReapOneQueue(w: World)
    requires w.waitq != []
    ensures ReapOne(w).waitq == w.waitq[1..] && |ReapOne(w).slots| == |w.slots|
  {
  }

  // ----- stop -----------------------------------------------------------

  /** One polling round of the stop loop: the environment acts, then agentd reaps. */
  function StopRound(w: World, es: seq<Env>): World {
    ReapAll(ApplyAll(w, es))
  }

  lemma ApplyAllSlots(w: World, es: seq<Env>)
    ensures ApplyAll(w, es).slots == w.slots
    decreases |es|
  {
    if es != [] { ApplyAllSlots(ApplyEnv(w, es[0]), es[1..]); }
  }

  lemma ReapAllSize(w: World)
    ensures |ReapAll(w).slots| == |w.slots| && ReapAll(w).waitq == []
    decreases |w.waitq|
  {
    if w.waitq != [] { ReapOneQueue(w); ReapAllSize(ReapOne(w)); }
  }

  lemma StopRoundSize(w: World, es: seq<Env>)
    ensures |StopRound(w, es).slots| == |w.slots|
  {
    ApplyAllSlots(w, es); ReapAllSize(ApplyAll(w, es));
  }

  function Kill(w: World, i: nat): World
    requires i < |w.slots|
  {
    var p := w.slots[i].pid;
    if p in w.procs then w.(procs := w.procs[p := w.procs[p].(killed := true)]) else w
  }

  /** `script` holds what the environment does before each remaining round. */
  function StopLoop(w: World, i: nat, script: seq<seq<Env>>): World
    requires i < |w.slots|
    decreases |script|
  {
    if script == [] then Kill(w, i)
    else
      StopRoundSize(w, script[0]);
      var w1 := StopRound(w, script[0]);
      if !Alive(w1, i) then Clear(w1, i) else StopLoop(w1, i, script[1..])
  }

  function StopAgent(w: World, i: nat, script: seq<seq<Env>>): World
    requires i < |w.slots|
  {
    if !Alive(w, i) then Clear(w, i) else StopLoop(w, i, script)
  }

  const STOP_ROUNDS := STOP_TIMEOUT_MS / STOP_POLL_MS

  // ----- reconciliation -------------------------------------------------

  /** The external-liveness cleanup shared by reconcile and the pidfd loop. */
  function DropExternal(w: World, i: nat): World
    requires i < |w.slots|
  {
    var w1 := Clear(SetStatus(w, w.slots[i].name, Stopped), i);
    w1.(slots := w1.slots[i := w1.slots[i].(external := false)])
  }

  predicate ExternalGone(w: World, i: nat)
    requires i < |w.slots|
  {
    w.slots[i].external && w.slots[i].pid > 0 && !Alive(w, i)
  }

  function AfterExternal(w: World, name: string): World {
    var i := FindByName(w.slots, name);
    if i >= 0 && ExternalGone(w, i) then DropExternal(w, i) else w
  }

  function ReconcileStart(w: World, name: string, sp: Spawn): World {
    var i := AllocIndex(w.slots, name);
    var w1 := Alloc(w, name);
    if i < 0 || w1.slots[i].nextRestartAt > w1.now then w1
    else if Outcome(w1, i, sp).SpawnFailed? then
      w1.(slots := w1.slots[i := w1.slots[i].(nextRestartAt := w1.now + 1)])
    else TrySpawn(w1, i, sp)
  }

  function Reconcile(w: World, name: string, sp: Spawn, script: seq<seq<Env>>): World {
    var wants := WantsRunning(w.disk, name);
    var w1 := AfterExternal(w, name);
    var i := FindByName(w1.slots, name);
    var alive := i >= 0 && Alive(w1, i);
    if wants && !alive then ReconcileStart(w1, name, sp)
    else if alive && !wants then StopAgent(w1, i, script)
    else w1
  }

  /** The main loop's pass over pidfds that reported an exit. */
  function SweepExternal(w: World, i: nat): World
    requires i < |w.slots|
  {
    if w.slots[i].pidfd < 0 || !w.slots[i].external then w else DropExternal(w, i)
  }

  /** An inotify event says the agent directory is gone. */
  function Forget(w: World, name: string): World {
    var i := FindByName(w.slots, name);
    if i >= 0 && w.slots[i].pid == 0 then Release(w, i) else w
  }

  // ----- recovery -------------------------------------------------------

  function RecoverAdopt(w: World, i: nat, pid: nat, pidfd: int, count: int): World
    requires i < |w.slots|
  {
    w.(slots := w.slots[i := w.slots[i].(pid := pid, external := true, pidfd := pidfd, restartCount := count)],
       open := w.open + (if pidfd >= 0 then {pidfd} else {}))
  }

  predicate PidFileLive(w: World, name: string) {
    Get(w.disk, name).pidFile > 0 && Get(w.disk, name).pidFile in w.procs
  }

  function Recover(w: World, name: string, sp: Spawn, pidfd: int, count: int): World {
    if PidFileLive(w, name) then
      var i := AllocIndex(w.slots, name);
      var w1 := Alloc(w, name);
      if i < 0 then w1 else RecoverAdopt(w1, i, Get(w.disk, name).pidFile, pidfd, count)
    else
      var w1 := w.(disk := Put(w.disk, name, Get(w.disk, name).(pidFile := 0)));
      if !WantsRunning(w1.disk, name) then w1
      else
        var i := AllocIndex(w1.slots, name);
        var w2 := Alloc(w1, name);
        if i < 0 then w2
        else if Outcome(w2, i, sp).SpawnFailed? then Release(w2, i) else TrySpawn(w2, i, sp)
  }

  // ----- control commands -----------------------------------------------

  predicate KnownAgent(w: World, name: string) {
    ValidName(name) && name in w.disk
  }

  function StartSettings(w: World, name: string): World {
    var w1 := SetDesired(w, name, true);
    if Get(w1.disk, name).enabled then w1 else SetEnabled(w1, name)
  }

  /** An explicit start clears the crash-loop bookkeeping of the slot. */
  function ClearBackoff(w: World, i: nat): World
    requires i < |w.slots|
  {
    Note(w.(slots := w.slots[i := w.slots[i].(failures := 0, nextRestartAt := 0)]), OperatorStart(w.slots[i].name))
  }

  function Start(w: World, name: string, sp: Spawn): World {
    if !KnownAgent(w, name) then w
    else
      var w1 := StartSettings(w, name);
      var i := AllocIndex(w1.slots, name);
      var w2 := Alloc(w1, name);
      if i < 0 || Alive(w2, i) then w2
      else TrySpawn(ClearBackoff(w2, i), i, sp)
  }

  lemma StopLoopSize(w: World, i: nat, script: seq<seq<Env>>)
    requires i < |w.slots|
    ensures |StopLoop(w, i, script).slots| == |w.slots|
    decreases |script|
  {
    if script != [] {
      StopRoundSize(w, script[0]);
      var w1 := StopRound(w, script[0]);
      if Alive(w1, i) { StopLoopSize(w1, i, script[1..]); }
    }
  }

  function Stop(w: World, name: string, script: seq<seq<Env>>): World {
    if !KnownAgent(w, name) then w
    else
      var w1 := SetDesired(w, name, false);
      var i := FindByName(w1.slots, name);
      if i < 0 then w1
      else
        StopLoopSize(w1, i, script);
        Release(StopAgent(w1, i, script), i)
  }

  function Restart(w: World, name: string, script: seq<seq<Env>>, sp: Spawn): World {
    Start(Stop(w, name, script), name, sp)
  }

  // ----- runs -----------------------------------------------------------

  datatype Step =
    | Environment(e: Env)
    | ReapStep
    | ReconcileStep(name: string, sp: Spawn, script: seq<seq<Env>>)
    | SweepStep(i: nat)
    | ForgetStep(name: string)
    | StartStep(name: string, sp: Spawn)
    | StopStep(name: string, script: seq<seq<Env>>)
    | RestartStep(name: string, sp: Spawn, script: seq<seq<Env>>)

  function Next(w: World, s: Step): World {
    match s
    case Environment(e) => ApplyEnv(w, e)
    case ReapStep => ReapAll(w)
    case ReconcileStep(name, sp, script) => Reconcile(w, name, sp, script)
    case SweepStep(i) => if i < |w.slots| then SweepExternal(w, i) else w
    case ForgetStep(name) => Forget(w, name)
    case StartStep(name, sp) => Start(w, name, sp)
    case StopStep(name, script) => Stop(w, name, script)
    case RestartStep(name, sp, script) => Restart(w, name, script, sp)
  }

  /** The kernel's side of a step: forks return unused identities, and a pidfd reports only
      the exit of the process it names. */
  predicate Legal(w: World, s: Step) {
    match s
    case Environment(_) => true
    case ReapStep => true
    case ReconcileStep(name, sp, script) => SpawnLegal(AfterExternal(w, name), sp)
    case SweepStep(i) => i < |w.slots| ==> w.slots[i].external ==> !Alive(w, i)
    case ForgetStep(_) => true
    case StartStep(_, sp) => SpawnLegal(w, sp)
    case StopStep(_, _) => true
    case RestartStep(name, sp, script) => SpawnLegal(Stop(w, name, script), sp)
  }

  function Run(w: World, steps: seq<Step>): World
    decreases |steps|
  {
    if steps == [] then w else Run(Next(w, steps[0]), steps[1..])
  }

  predicate LegalRun(w: World, steps: seq<Step>)
    decreases |steps|
  {
    steps == [] || (Legal(w, steps[0]) && LegalRun(Next(w, steps[0]), steps[1..]))
  }
}
