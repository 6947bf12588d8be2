/** The supervisor as agentd.c runs it: a slot table updated in place, loops over it, a reaper
    loop nested in the stop loop. Each method is proved to compute the function of the same
    step in SupervisorModel, so every lemma about runs holds of it. */
module Agentd {
  import opened AgentNames
  import opened SupervisorModel

  datatype Reply =
    | InvalidName | NoSuchAgent | SlotsFull | SpawnError
    | AlreadyRunning(pid: nat) | Started(pid: nat) | NoLiveProcess | StoppedOk

  /** The end of a start: a slot, and a process in it unless there is one. */
  function StartSlot(w: World, name: string, sp: Spawn): World {
    var i := AllocIndex(w.slots, name);
    var w1 := Alloc(w, name);
    if i < 0 || Alive(w1, i) then w1 else TrySpawn(ClearBackoff(w1, i), i, sp)
  }

  /** What the operator is told: by the slot of that name, the processes, and whether the name in the slot is an
      agent. */
  function SlotReply(w: World, name: string, sp: Spawn): Reply {
    var i := AllocIndex(w.slots, name);
    if i < 0 then SlotsFull
    else if w.slots[i].used && w.slots[i].pid > 0 && w.slots[i].pid in w.procs then AlreadyRunning(w.slots[i].pid)
    else if sp.Forked? && (w.slots[i].used || SlotName(name) in w.disk) then Started(sp.pid)
    else SpawnError
  }

  class Supervisor {
    const slots: array<Slot>
    var disk: map<string, Settings>
    var procs: map<nat, Process>
    var waitq: seq<Zombie>
    var now: nat
    var open: set<int>
    ghost var everPids: set<nat>
    ghost var log: seq<Event>

    ghost function State(): World
      reads this, slots
    {
      World(slots[..], disk, procs, waitq, now, open, everPids, log)
    }

    ghost predicate Valid() {
      slots.Length == MAX_MANAGED
    }

    constructor (disk: map<string, Settings>, procs: map<nat, Process>, now: nat, ghost everPids: set<nat>)
      ensures Valid() && fresh(slots)
      ensures State() == World(seq(MAX_MANAGED, _ => FREE), disk, procs, [], now, {}, everPids, [])
    {
      this.disk, this.procs, this.waitq, this.now, this.open := disk, procs, [], now, {};
      this.everPids, this.log := everPids, [];
      slots := new Slot[MAX_MANAGED](_ => FREE);
      new;
      assert slots[..] == seq(MAX_MANAGED, _ => FREE);
    }

    // ----- slot helpers ---------------------------------------------------

    method FindByName(name: string) returns (i: int)
      requires Valid()
      ensures i == SupervisorModel.FindByName(slots[..], name)
    {
      var k := 0;
      while k < slots.Length
        invariant 0 <= k <= slots.Length
        invariant FindName(slots[..], name, k) == FindName(slots[..], name, 0)
      {
        if slots[k].used && slots[k].name == name { return k; }
        k := k + 1;
      }
      return -1;
    }

    method FindByPid(pid: nat) returns (i: int)
      requires Valid()
      ensures i == SupervisorModel.FindByPid(slots[..], pid)
    {
      if pid == 0 { return -1; }
      var k := 0;
      while k < slots.Length
        invariant 0 <= k <= slots.Length
        invariant FindPid(slots[..], pid, k) == FindPid(slots[..], pid, 0)
      {
        if slots[k].used && slots[k].pid == pid { return k; }
        k := k + 1;
      }
      return -1;
    }

    method AllocSlot(name: string) returns (i: int)
      requires Valid()
      modifies this`log, slots
      ensures i == AllocIndex(old(slots[..]), name)
      ensures State() == Alloc(old(State()), name)
    {
      i := FindByName(name);
      if i >= 0 { return; }
      var k := 0;
      while k < slots.Length
        invariant 0 <= k <= slots.Length
        invariant State() == old(State())
        invariant FindFree(slots[..], k) == FindFree(slots[..], 0)
      {
        if !slots[k].used {
          slots[k] := FreshSlot(name);
          log := log + [Allocated(SlotName(name))];
          assert slots[..] == old(slots[..])[k := FreshSlot(name)];
          return k;
        }
        k := k + 1;
      }
      return -1;
    }

    method SetSlot(i: nat, s: Slot)
      requires Valid() && i < slots.Length
      modifies slots
      ensures State() == old(State()).(slots := old(slots[..])[i := s])
    {
      slots[i] := s;
      assert slots[..] == old(slots[..])[i := s];
    }

    /** close(fd), for a descriptor field that may be unset. */
    method CloseFd(fd: int) returns (r: int)
      modifies this`open
      ensures r == ClosedFd(fd) && State() == old(State()).(open := old(open) - FdSet(fd))
    {
      r := fd;
      if fd >= 0 { open := open - {fd}; r := -1; }
    }

    method ClearRuntimeState(i: nat)
      requires Valid() && i < slots.Length
      modifies this`open, slots
      ensures State() == Clear(old(State()), i)
    {
      var s := slots[i];
      var pidfd := CloseFd(s.pidfd);
      var brokerFd := CloseFd(s.brokerFd);
      var inboxFd := CloseFd(s.inboxFd);
      SetSlot(i, s.(pidfd := pidfd, brokerFd := brokerFd, inboxFd := inboxFd, pid := 0));
      assert open == old(open) - Fds(s);
    }

    method ReleaseSlot(i: nat)
      requires Valid() && i < slots.Length
      modifies this`open, slots
      ensures State() == Release(old(State()), i)
    {
      var s := slots[i];
      var _ := CloseFd(s.pidfd);
      var _ := CloseFd(s.brokerFd);
      var _ := CloseFd(s.inboxFd);
      SetSlot(i, FREE);
      assert open == old(open) - Fds(s);
    }

    method AgentAlive(i: nat) returns (b: bool)
      requires Valid() && i < slots.Length
      ensures b == Alive(State(), i)
    {
      b := slots[i].pid > 0 && slots[i].pid in procs;
    }

    method WriteSettings(name: string, s: Settings)
      modifies this`disk
      ensures State() == old(State()).(disk := Put(old(disk), name, s))
    {
      if name in disk { disk := disk[name := s]; }
    }

    // ----- start ----------------------------------------------------------

    method SpawnAgent(i: nat, sp: Spawn) returns (ok: bool)
      requires Valid() && i < slots.Length
      modifies this, slots
      ensures ok <==> sp.Forked? && old(slots[i].name) in old(disk)
      ensures State() == TrySpawn(old(State()), i, sp)
    {
      if slots[i].name !in disk { return false; }
      match sp
      case SpawnFailed => return false;
      case Forked(pid, pidfd, brokerFd, inboxFd) =>
        var s := slots[i];
        procs := procs[pid := Process(s.name, true, false, false)];
        everPids := everPids + {pid};
        open := open + FdSet(pidfd) + FdSet(brokerFd) + FdSet(inboxFd);
        WriteSettings(s.name, Get(disk, s.name).(pidFile := pid));
        SetSlot(i, SpawnedSlot(s, now, sp));
        log := log + [Spawned(s.name)];
        assert open == old(open) + SpawnFds(sp);
        return true;
    }

    // ----- reap -----------------------------------------------------------

    /** What the environment does while agentd sleeps. */
    method Elapse(es: seq<Env>)
      requires Valid()
      modifies this
      ensures State() == ApplyAll(old(State()), es)
    {
      var k := 0;
      while k < |es|
        invariant 0 <= k <= |es|
        invariant ApplyAll(State(), es[k..]) == ApplyAll(old(State()), es)
      {
        assert es[k..][1..] == es[k + 1..];
        ghost var w := ApplyEnv(State(), es[k]);
        match es[k] {
          case Tick(d) => now := now + d;
          case Exits(pid, exit) =>
            if pid in procs && !procs[pid].exited {
              if procs[pid].child {
                procs, waitq := procs[pid := procs[pid].(exited := true)], waitq + [Zombie(pid, exit)];
              } else {
                procs := procs - {pid};
              }
            }
          case Configure(name, s) =>
            disk := disk[name := s];
            if s.desired { log := log + [DesiredRunning(name)]; }
          case RemoveDir(name) => disk := disk - {name};
        }
        assert State() == w;
        k := k + 1;
      }
      assert es[k..] == [];
    }

    /** What follows an exit: decline, suppress, or schedule a restart. */
    method DecideRestart(i: nat, e: Exit, uptime: int, failures: nat)
      requires Valid() && i < slots.Length && failures > 0
      modifies this`disk, this`log, slots
      ensures State() == Decide(old(State()), i, e, uptime, failures)
    {
      var name := slots[i].name;
      if !WantsRunning(disk, name) {
        log := log + [Reaped(name, uptime, false)];
        return;
      }
      if !PolicyRestarts(Get(disk, name).policy, e) {
        WriteSettings(name, Get(disk, name).(desired := false));
        log := log + [Reaped(name, uptime, false)];
        return;
      }
      var s := slots[i].(failures := failures, restartCount := slots[i].restartCount + 1);
      log := log + [Reaped(name, uptime, true)];
      if failures >= RESTART_BURST_LIMIT {
        WriteSettings(name, Get(disk, name).(status := CrashLoop));
        WriteSettings(name, Get(disk, name).(desired := false));
        SetSlot(i, s.(nextRestartAt := 0));
        return;
      }
      var shift := failures - 1;
      var delay := if shift >= 5 then RESTART_BACKOFF_MAX_SEC else Pow2(shift);
      if delay > RESTART_BACKOFF_MAX_SEC { delay := RESTART_BACKOFF_MAX_SEC; }
      SetSlot(i, s.(nextRestartAt := now + delay));
    }

    method ReapZombies()
      requires Valid()
      modifies this, slots
      ensures State() == ReapAll(old(State()))
    {
      while waitq != []
        invariant ReapAll(State()) == ReapAll(old(State()))
        decreases |waitq|
      {
        ReapOneQueue(State());
        var z := waitq[0];
        waitq, procs := waitq[1..], procs - {z.pid};
        HandleOneExit(z);
      }
    }

    method HandleOneExit(z: Zombie)
      requires Valid()
      modifies this, slots
      ensures State() == HandleExit(old(State()), z)
    {
      var i := FindByPid(z.pid);
      if i < 0 { return; }
      var s := slots[i];
      ClearRuntimeState(i);
      WriteSettings(s.name, Get(disk, s.name).(status := ExitStatus(z.exit)));
      var uptime := if s.lastStartedAt > 0 then now - s.lastStartedAt else 0;
      var failures := (if uptime >= RESTART_STABLE_SEC then 0 else s.failures) + 1;
      DecideRestart(i, z.exit, uptime, failures);
    }

    // ----- stop -----------------------------------------------------------

    method StopAgent(i: nat, script: seq<seq<Env>>)
      requires Valid() && i < slots.Length && |script| == STOP_ROUNDS
      modifies this, slots
      ensures State() == SupervisorModel.StopAgent(old(State()), i, script)
    {
      var alive := AgentAlive(i);
      if !alive {
        ClearRuntimeState(i);
        return;
      }
      var slept := 0;
      ghost var rounds := 0;
      while slept < STOP_TIMEOUT_MS
        invariant slept == rounds * STOP_POLL_MS && 0 <= rounds <= STOP_ROUNDS
        invariant StopLoop(State(), i, script[rounds..]) == StopLoop(old(State()), i, script)
      {
        ghost var w := State();
        StopRoundSize(w, script[rounds]);
        assert script[rounds..][1..] == script[rounds + 1..];
        Elapse(script[slept / STOP_POLL_MS]);
        ReapZombies();
        assert State() == StopRound(w, script[rounds]);
        alive := AgentAlive(i);
        if !alive {
          ClearRuntimeState(i);
          return;
        }
        slept := slept + STOP_POLL_MS;
        rounds := rounds + 1;
      }
      assert script[rounds..] == [];
      var p := slots[i].pid;
      if p in procs { procs := procs[p := procs[p].(killed := true)]; }
    }

    // ----- reconciliation -------------------------------------------------

    method CleanUpExternal(i: nat)
      requires Valid() && i < slots.Length
      modifies this`disk, this`open, slots
      ensures State() == DropExternal(old(State()), i)
    {
      var name := slots[i].name;
      WriteSettings(name, Get(disk, name).(status := Stopped));
      ClearRuntimeState(i);
      SetSlot(i, slots[i].(external := false));
    }

    method CheckExternal(name: string)
      requires Valid()
      modifies this`disk, this`open, slots
      ensures State() == AfterExternal(old(State()), name)
    {
      var i := FindByName(name);
      if i >= 0 && slots[i].external && slots[i].pid > 0 {
        var alive := AgentAlive(i);
        if !alive { CleanUpExternal(i); }
      }
    }

    method ReconcileCb(name: string, sp: Spawn, script: seq<seq<Env>>)
      requires Valid() && |script| == STOP_ROUNDS
      modifies this, slots
      ensures State() == Reconcile(old(State()), name, sp, script)
    {
      var wants := Get(disk, name).enabled && Get(disk, name).desired;
      CheckExternal(name);
      var i := FindByName(name);
      var alive := false;
      if i >= 0 { alive := AgentAlive(i); }
      if wants && !alive {
        StartMissing(name, sp);
      } else if alive && !wants {
        StopAgent(i, script);
      }
    }

    method StartMissing(name: string, sp: Spawn)
      requires Valid()
      modifies this, slots
      ensures State() == ReconcileStart(old(State()), name, sp)
    {
      var i := AllocSlot(name);
      if i < 0 || slots[i].nextRestartAt > now { return; }
      var ok := SpawnAgent(i, sp);
      if !ok { SetSlot(i, slots[i].(nextRestartAt := now + 1)); }
    }

    /** The main loop's look at slot i after its pidfd reported an exit. */
    method PidfdReady(i: nat)
      requires Valid() && i < slots.Length
      modifies this`disk, this`open, slots
      ensures State() == SweepExternal(old(State()), i)
    {
      if slots[i].pidfd < 0 || !slots[i].external { return; }
      CleanUpExternal(i);
    }

    method DirectoryGone(name: string)
      requires Valid()
      modifies this`open, slots
      ensures State() == Forget(old(State()), name)
    {
      var i := FindByName(name);
      if i >= 0 && slots[i].pid == 0 { ReleaseSlot(i); }
    }

    method RecoverCb(name: string, sp: Spawn, pidfd: int, count: int)
      requires Valid()
      modifies this, slots
      ensures State() == Recover(old(State()), name, sp, pidfd, count)
    {
      var pid := Get(disk, name).pidFile;
      if pid > 0 && pid in procs {
        var i := AllocSlot(name);
        if i < 0 { return; }
        open := open + FdSet(pidfd);
        SetSlot(i, slots[i].(pid := pid, external := true, pidfd := pidfd, restartCount := count));
        return;
      }
      WriteSettings(name, Get(disk, name).(pidFile := 0));
      if Get(disk, name).enabled && Get(disk, name).desired {
        var i := AllocSlot(name);
        if i < 0 { return; }
        var ok := SpawnAgent(i, sp);
        if !ok { ReleaseSlot(i); }
      }
    }

    // ----- control commands -----------------------------------------------

    /** The part of a start that follows the settings. */
    method StartInSlot(name: string, sp: Spawn) returns (r: Reply)
      requires Valid() && name in disk
      modifies this, slots
      ensures State() == StartSlot(old(State()), name, sp)
      ensures r == SlotReply(old(State()), name, sp)
    {
      var i := AllocSlot(name);
      if i < 0 { return SlotsFull; }
      var alive := AgentAlive(i);
      if alive { return AlreadyRunning(slots[i].pid); }
      SetSlot(i, slots[i].(failures := 0, nextRestartAt := 0));
      log := log + [OperatorStart(slots[i].name)];
      var ok := SpawnAgent(i, sp);
      if !ok { return SpawnError; }
      return Started(slots[i].pid);
    }

    method HandleCmdStart(name: string, sp: Spawn) returns (r: Reply)
      requires Valid()
      modifies this, slots
      ensures State() == Start(old(State()), name, sp)
      ensures r == if !ValidName(name) then InvalidName else if name !in old(disk) then NoSuchAgent
                   else SlotReply(old(State()), name, sp)
    {
      hide ValidName, FindName;
      if !ValidName(name) { return InvalidName; }
      if name !in disk { return NoSuchAgent; }
      WriteSettings(name, Get(disk, name).(desired := true));
      if !Get(disk, name).enabled { WriteSettings(name, Get(disk, name).(enabled := true)); }
      assert State() == StartSettings(old(State()), name);
      r := StartInSlot(name, sp);
    }

    method HandleCmdStop(name: string, script: seq<seq<Env>>) returns (r: Reply)
      requires Valid() && |script| == STOP_ROUNDS
      modifies this, slots
      ensures State() == Stop(old(State()), name, script)
      ensures r == if !ValidName(name) then InvalidName else if name !in old(disk) then NoSuchAgent
                   else if SupervisorModel.FindByName(old(slots[..]), name) < 0 then NoLiveProcess else StoppedOk
    {
      if !ValidName(name) { return InvalidName; }
      if name !in disk { return NoSuchAgent; }
      WriteSettings(name, Get(disk, name).(desired := false));
      var i := FindByName(name);
      if i < 0 { return NoLiveProcess; }
      StopLoopSize(State(), i, script);
      StopAgent(i, script);
      ReleaseSlot(i);
      return StoppedOk;
    }

    method HandleCmdRestart(name: string, sp: Spawn, script: seq<seq<Env>>) returns (r: Reply)
      requires Valid() && |script| == STOP_ROUNDS
      modifies this, slots
      ensures State() == Restart(old(State()), name, script, sp)
      ensures r == if !ValidName(name) then InvalidName else if name !in old(disk) then NoSuchAgent
                   else var w1 := Stop(old(State()), name, script);
                     if name !in w1.disk then NoSuchAgent else SlotReply(w1, name, sp)
    {
      var stopped := HandleCmdStop(name, script);
      if stopped.InvalidName? || stopped.NoSuchAgent? { return stopped; }
      r := HandleCmdStart(name, sp);
    }

    // ----- the poll timeout -----------------------------------------------

    /** The poll timeout is the fallback or the earliest scheduled restart, whichever is sooner. */
    method ScheduledRestartTimeoutMs(fallbackMs: nat) returns (best: nat)
      requires Valid()
      ensures best <= fallbackMs
      ensures forall i :: 0 <= i < slots.Length && Pending(slots[i]) ==> best <= WaitMs(slots[i], now)
      ensures best == fallbackMs
        || exists i :: 0 <= i < slots.Length && Pending(slots[i]) && best == WaitMs(slots[i], now)
    {
      best := fallbackMs;
      for i := 0 to slots.Length
        invariant best <= fallbackMs
        invariant forall j :: 0 <= j < i && Pending(slots[j]) ==> best <= WaitMs(slots[j], now)
        invariant best == fallbackMs || exists j :: 0 <= j < i && Pending(slots[j]) && best == WaitMs(slots[j], now)
      {
        var m := slots[i];
        if m.used && m.pid == 0 && m.nextRestartAt > 0 {
          var ms := (m.nextRestartAt - now) * 1000;
          if ms < 0 { ms := 0; }
          if ms < best { best := ms; }
        }
      }
    }

    method ScheduledRestartDue() returns (due: bool)
      requires Valid()
      ensures due <==> exists i :: 0 <= i < slots.Length && Pending(slots[i]) && slots[i].nextRestartAt <= now
    {
      for i := 0 to slots.Length
        invariant forall j :: 0 <= j < i && Pending(slots[j]) ==> slots[j].nextRestartAt > now
      {
        if slots[i].used && slots[i].pid == 0 && slots[i].nextRestartAt > 0 && slots[i].nextRestartAt <= now {
          return true;
        }
      }
      return false;
    }
  }

  predicate Pending(s: Slot) { s.used && s.pid == 0 && s.nextRestartAt > 0 }

  function WaitMs(s: Slot, now: nat): nat {
    if s.nextRestartAt > now then (s.nextRestartAt - now) * 1000 else 0
  }

  /** Sleeping less than the timeout never oversleeps a restart; sleeping it out when it is not
      the fallback makes one due. */
  lemma TimeoutMeetsTheFirstRestart(slots: seq<Slot>, now: nat, fallbackMs: nat, best: nat, later: nat)
    requires best <= fallbackMs && later >= now
    requires forall i :: 0 <= i < |slots| && Pending(slots[i]) ==> best <= WaitMs(slots[i], now)
    requires best == fallbackMs || exists i :: 0 <= i < |slots| && Pending(slots[i]) && best == WaitMs(slots[i], now)
    ensures (later - now) * 1000 < best ==>
      forall i :: 0 <= i < |slots| && Pending(slots[i]) ==> slots[i].nextRestartAt > later
    ensures best < fallbackMs && (later - now) * 1000 >= best ==>
      exists i :: 0 <= i < |slots| && Pending(slots[i]) && slots[i].nextRestartAt <= later
  {
    forall i | 0 <= i < |slots| && Pending(slots[i]) && (later - now) * 1000 < best
      ensures slots[i].nextRestartAt > later
    {
      assert best <= WaitMs(slots[i], now);
    }
    if best < fallbackMs && (later - now) * 1000 >= best {
      var i :| 0 <= i < |slots| && Pending(slots[i]) && best == WaitMs(slots[i], now);
      assert slots[i].nextRestartAt <= later;
    }
  }
}
