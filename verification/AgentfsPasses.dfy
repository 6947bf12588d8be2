/** What the reaper, a registration and module unload achieve when nobody interrupts them: each starts when all
    threads are idle, in any state an interleaving can reach, and runs to its end. */
module AgentfsPasses {
  import opened Options
  import opened AgentfsModel
  import opened AgentfsInvariant
  import opened AgentfsSteps
  import opened AgentfsTheorems
  import opened Agentfs

  /** Thread t takes the next step of its call. */
  function Step(t: Tid, n: AgentId): Act { Act(t, Proceed(n, true)) }

  ghost predicate AllIdle(s: System) { forall u: Tid :: At(s, u) == Idle }

  ghost predicate OnlyRuns(s: System, t: Tid) { forall u: Tid :: u != t ==> At(s, u) == Idle }

  predicate AllUnlocked(s: System) { forall a :: a in s.agents ==> s.agents[a].lock.None? }

  lemma Prepend(s: System, t: Tid, c: Choice, more: seq<Act>)
    requires Enabled(s, t, c) && Feasible(Next(s, t, c), more)
    ensures Feasible(s, [Act(t, c)] + more) && Run(s, [Act(t, c)] + more) == Run(Next(s, t, c), more)
  {
    assert ([Act(t, c)] + more)[1..] == more;
  }

  lemma OnlyOneMoves(s: System, s': System, t: Tid, pc: Pc)
    requires OnlyRuns(s, t) && s'.threads == s.threads[t := pc]
    ensures OnlyRuns(s', t) && At(s', t) == pc && (pc == Idle ==> AllIdle(s'))
  {
    assert forall u: Tid :: u != t ==> At(s', u) == At(s, u);
  }

  // ----- the reaper -----------------------------------------------------

  /** The entry has an owner, and the owner is gone. */
  predicate Abandoned(x: Agent, gone: set<Tid>) { x.owner.Some? && x.owner.value in gone }

  /** A reaped entry: dead, without an owner, both queues drained. */
  function Reaped(x: Agent): Agent {
    DrainedOut(DrainedOut(x.(dead := true), Inbox), Outbox).(owner := None)
  }

  lemma ReapedIs(x: Agent)
    ensures var y := Reaped(x);
      && y.dead && y.owner.None? && BothEmpty(y) && y.name == x.name && y.lock == x.lock
      && Gist(y.inbox.removed) == Gist(x.inbox.removed) + x.inbox.messages
      && Gist(y.outbox.removed) == Gist(x.outbox.removed) + x.outbox.messages
  {
    DrainedOutIs(x.(dead := true), Inbox);
    DrainedOutIs(DrainedOut(x.(dead := true), Inbox), Outbox);
  }

  /** The parts of the state that the work on one entry leaves alone. */
  ghost predicate SameElse(s: System, s': System, t: Tid) {
    && s'.list == s.list && s'.gLock == s.gLock && s'.gone == s.gone && s'.unloading == s.unloading
    && forall u: Tid :: u != t ==> At(s', u) == At(s, u)
  }

  lemma {:induction false} SectionRuns(s: System, t: Tid, r: ReapStage, a: AgentId, rest: seq<AgentId>, n: AgentId)
      returns (acts: seq<Act>)
    requires At(s, t) == Reap(r, a, rest) && !r.SLock? && !r.SWalk? && t !in s.gone && n !in s.agents && a in s.agents
    requires r.SAcquire? ==> s.agents[a].lock.None?
    ensures Feasible(s, acts)
    ensures var s' := Run(s, acts);
      && At(s', t) == Reap(SWalk, 0, rest) && SameElse(s, s', t)
      && s'.agents == s.agents[a := ReapSection(s.agents[a], t, r, a, rest)]
    decreases ReapRank(s.agents[a], r)
  {
    hide MailEffect, RecycleEffect, RegisterStep, UnloadStep;
    var c := Proceed(n, true);
    var s1 := Next(s, t, c);
    var (x', pc') := ReapEffect(s.agents[a], t, r, a, rest);
    assert s1.agents == s.agents[a := x'] && At(s1, t) == pc';
    if r.SPut? {
      acts := [];
    } else {
      acts := SectionRuns(s1, t, pc'.r, a, rest, n);
    }
    Prepend(s, t, c, acts);
    acts := [Act(t, c)] + acts;
  }

  lemma WalkTurn(s: System, t: Tid, rest: seq<AgentId>, n: AgentId)
    requires At(s, t) == Reap(SWalk, 0, rest) && t !in s.gone && n !in s.agents
    requires forall a :: a in s.agents ==> s.agents[a].dead == s.agents[a].owner.None?
    ensures Enabled(s, t, Proceed(n, true)) && Next(s, t, Proceed(n, true)) == WalkStep(s, t, rest)
    ensures forall a :: a in s.agents ==>
      (Abandoned(s.agents[a], s.gone) <==> !(s.agents[a].dead || OwnerAlive(s.agents[a], s.gone)))
  {
  }

  /** All threads are idle again; of the entries visited, those abandoned are reaped. */
  ghost predicate Walked(s: System, s': System, rest: seq<AgentId>) {
    && AllIdle(s') && s'.list == s.list && s'.gLock.None? && s'.agents.Keys == s.agents.Keys
    && forall a :: a in s.agents ==>
         s'.agents[a] == if a in rest && Abandoned(s.agents[a], s.gone) then Reaped(s.agents[a]) else s.agents[a]
  }

  ghost predicate Walking(s: System, t: Tid, rest: seq<AgentId>, n: AgentId) {
    && At(s, t) == Reap(SWalk, 0, rest) && t !in s.gone && n !in s.agents && AllUnlocked(s) && OnlyRuns(s, t)
    && forall a :: a in s.agents ==> s.agents[a].dead == s.agents[a].owner.None?
  }

  lemma ReapsHere(s: System, t: Tid, a: AgentId, rest: seq<AgentId>, n: AgentId) returns (acts: seq<Act>)
    requires Walking(s, t, [a] + rest, n) && a in s.agents && Abandoned(s.agents[a], s.gone)
    ensures Feasible(WalkStep(s, t, [a] + rest), acts)
    ensures var s' := Run(WalkStep(s, t, [a] + rest), acts);
      && Walking(s', t, rest, n) && s'.agents == s.agents[a := Reaped(s.agents[a])]
      && s'.list == s.list && s'.gone == s.gone
  {
    hide Reaped, ReapSection;
    var s1 := WalkStep(s, t, [a] + rest);
    assert ([a] + rest)[1..] == rest;
    OnlyOneMoves(s, s1, t, Reap(SAcquire, a, rest));
    acts := SectionRuns(s1, t, SAcquire, a, rest, n);
    ReapIs(s.agents[a], t, a, rest);
    ReapedSection(s.agents[a], t, a, rest);
    ReapedIs(s.agents[a]);
  }

  lemma ReapedSection(x: Agent, t: Tid, a: AgentId, rest: seq<AgentId>)
    requires x.lock.None?
    ensures ReapSection(x, t, SAcquire, a, rest) == Reaped(x)
  {
    ReapIs(x, t, a, rest);
  }

  lemma {:induction false} WalkRuns(s: System, t: Tid, rest: seq<AgentId>, n: AgentId) returns (acts: seq<Act>)
    requires Walking(s, t, rest, n)
    ensures Feasible(s, acts) && Walked(s, Run(s, acts), rest)
    decreases |rest|
  {
    hide Enabled, Next, Reaped, OwnerAlive, WalkStep, AllUnlocked;
    var c := Proceed(n, true);
    WalkTurn(s, t, rest, n);
    var s1 := WalkStep(s, t, rest);
    WalkSkips(s, t, rest, n);
    if rest == [] {
      acts := [];
      assert Run(s1, acts) == s1;
    } else if rest[0] !in s.agents || !Abandoned(s.agents[rest[0]], s.gone) {
      acts := WalkRuns(s1, t, rest[1..], n);
    } else {
      var a, tail := rest[0], rest[1..];
      assert rest == [a] + tail;
      var first := ReapsHere(s, t, a, tail, n);
      var s2 := Run(s1, first);
      var more := WalkRuns(s2, t, tail, n);
      Chain(s1, first, more);
      acts := first + more;
      WalkedOn(s, s2, Run(s2, more), a, tail);
    }
    Prepend(s, t, c, acts);
    acts := [Act(t, c)] + acts;
  }

  /** A turn that ends the walk or passes an entry over. */
  lemma WalkSkips(s: System, t: Tid, rest: seq<AgentId>, n: AgentId)
    requires Walking(s, t, rest, n)
    ensures var s1 := WalkStep(s, t, rest);
      && (rest == [] ==> Walked(s, s1, rest))
      && (rest != [] && (rest[0] !in s.agents || !Abandoned(s.agents[rest[0]], s.gone)) ==>
            Walking(s1, t, rest[1..], n) && s1.agents == s.agents && s1.list == s.list && s1.gone == s.gone)
  {
    hide Reaped;
    var s1 := WalkStep(s, t, rest);
    OnlyOneMoves(s, s1, t, At(s1, t));
  }

  lemma WalkedOn(s: System, s2: System, s': System, a: AgentId, tail: seq<AgentId>)
    requires a in s.agents && Abandoned(s.agents[a], s.gone) && s2.agents == s.agents[a := Reaped(s.agents[a])]
    requires s2.list == s.list && s2.gone == s.gone && Walked(s2, s', tail)
    ensures Walked(s, s', [a] + tail)
  {
    hide Reaped;
    assert !Abandoned(Reaped(s.agents[a]), s.gone) by { ReapedIs(s.agents[a]); }
  }

  lemma {:induction false} Chain(s: System, first: seq<Act>, more: seq<Act>)
    requires Feasible(s, first) && Feasible(Run(s, first), more)
    ensures Feasible(s, first + more) && Run(s, first + more) == Run(Run(s, first), more)
    decreases |first|
  {
    if first == [] {
      assert first + more == more;
    } else {
      Chain(Next(s, first[0].t, first[0].c), first[1..], more);
      assert (first + more)[1..] == first[1..] + more;
    }
  }

  /** A pass of the reaper that nobody interrupts: exactly the entries whose owner is gone end up dead, empty and
      without an owner, and every other entry is as it was. */
  lemma ReaperPass(before: seq<Act>, t: Tid) returns (acts: seq<Act>)
    requires Feasible(INITIAL, before) && AllIdle(Run(INITIAL, before))
    requires t !in Run(INITIAL, before).gone && !Run(INITIAL, before).unloading
    ensures Feasible(Run(INITIAL, before), acts)
    ensures var s, s' := Run(INITIAL, before), Run(Run(INITIAL, before), acts);
      && AllIdle(s') && s'.list == s.list && s'.gLock.None? && s'.agents.Keys == s.agents.Keys
      && forall a :: a in s.agents ==>
           s'.agents[a] == if Abandoned(s.agents[a], s.gone) then Reaped(s.agents[a]) else s.agents[a]
  {
    var s := Run(INITIAL, before);
    IdleIsUnlocked(before);
    var n := FreshId(s.agents.Keys);
    assert n !in s.agents;
    var s1 := Next(s, t, CallReap);
    var s2 := Next(s1, t, Proceed(n, true));
    OnlyOneMoves(s, s1, t, At(s1, t));
    OnlyOneMoves(s1, s2, t, Reap(SWalk, 0, s.list));
    acts := WalkRuns(s2, t, s.list, n);
    assert Walked(s2, Run(s2, acts), s.list);
    Prepend(s1, t, Proceed(n, true), acts);
    acts := [Step(t, n)] + acts;
    Prepend(s, t, CallReap, acts);
    acts := [Act(t, CallReap)] + acts;
  }

  /** With all threads idle no lock is held, every entry is on the list, and dead means without an owner. */
  lemma IdleIsUnlocked(before: seq<Act>)
    requires Feasible(INITIAL, before) && AllIdle(Run(INITIAL, before))
    ensures var s := Run(INITIAL, before);
      && Good(s) && AllUnlocked(s) && s.gLock.None?
      && (forall a :: a in s.agents ==> a in s.list && s.agents[a].dead == s.agents[a].owner.None?)
      && (forall a :: a in s.list ==> a in s.agents)
  {
    var s := Run(INITIAL, before);
    EveryInterleavingIsGood(before);
    RegistryIsSound(before);
    IdleHoldsNothing(s);
  }

  lemma IdleHoldsNothing(s: System)
    requires Locks(s) && AllIdle(s)
    ensures s.gLock.None? && AllUnlocked(s)
  {
    if u: Tid :| s.gLock == Some(u) { LockIsHeld(s, u); }
    forall a | a in s.agents ensures s.agents[a].lock.None? {
      if u: Tid :| s.agents[a].lock == Some(u) { LockIsHeld(s, u); }
    }
  }

  lemma LockIsHeld(s: System, u: Tid)
    requires Locks(s) && (s.gLock == Some(u) || exists a :: a in s.agents && s.agents[a].lock == Some(u))
    ensures At(s, u) != Idle
  {
    if s.gLock == Some(u) {
      assert HoldsGlobal(At(s, u));
    } else {
      var a :| a in s.agents && s.agents[a].lock == Some(u);
      assert HoldsAgent(At(s, u), a);
    }
  }

  // ----- registration ---------------------------------------------------

  /** No entry before place i has the name. */
  ghost predicate Scanned(s: System, n: string, i: nat) {
    i <= |s.list| && forall k :: 0 <= k < i && s.list[k] in s.agents ==> s.agents[s.list[k]].name != n
  }

  predicate NamedAt(s: System, n: string, i: nat) {
    i < |s.list| && s.list[i] in s.agents && s.agents[s.list[i]].name == n
  }

  /** The scan ends at the first entry of that name, or past the last entry. */
  lemma {:induction false} ScanRuns(s: System, t: Tid, i: nat, n: string, a: AgentId, id: AgentId)
      returns (acts: seq<Act>, k: nat)
    requires At(s, t) == Register(GScan(i), n, a) && t !in s.gone && id !in s.agents && Scanned(s, n, i)
    ensures Feasible(s, acts) && i <= k <= |s.list| && Scanned(s, n, k) && (k < |s.list| ==> NamedAt(s, n, k))
    ensures var s' := Run(s, acts);
      && SameElse(s, s', t) && s'.agents == s.agents
      && At(s', t) == if k < |s.list| then Register(GAcquire, n, s.list[k]) else Register(GInsert, n, a)
    decreases |s.list| - i
  {
    hide MailEffect, ReapEffect, RecycleEffect, UnloadStep, WalkStep;
    var c := Proceed(id, true);
    var s1 := Next(s, t, c);
    if i < |s.list| && !NamedAt(s, n, i) {
      acts, k := ScanRuns(s1, t, i + 1, n, a, id);
    } else {
      acts, k := [], i;
      assert Run(s1, acts) == s1;
    }
    Prepend(s, t, c, acts);
    acts := [Act(t, c)] + acts;
  }

  lemma RecycleTurn(s: System, t: Tid, g: RegStage, n: string, a: AgentId, id: AgentId)
    requires At(s, t) == Register(g, n, a) && Recycling(g) && t !in s.gone && id !in s.agents && a in s.agents
    requires g.GAcquire? ==> s.agents[a].lock.None?
    ensures Enabled(s, t, Proceed(id, true))
    ensures var s1, (x', pc') := Next(s, t, Proceed(id, true)), RecycleEffect(s.agents[a], t, g, n, a, s.gone);
      && s1.agents == s.agents[a := x'] && At(s1, t) == pc' && SameElse(s, s1, t)
      && pc'.Register? && pc'.n == n && pc'.a == a
      && if g.GRefuse? || g.GRelease? then pc'.g.GUnlock? else Recycling(pc'.g) && !pc'.g.GAcquire?
  {
    hide MailEffect, ReapEffect, UnloadStep, WalkStep, Recyclable, DrainTurn;
    assert Next(s, t, Proceed(id, true)) == RecycleStep(s, t, g, n, a);
  }

  lemma RecycleSinks(x: Agent, t: Tid, g: RegStage, n: string, a: AgentId, gone: set<Tid>)
    requires Recycling(g) && !g.GRefuse? && !g.GRelease?
    ensures var (x', pc') := RecycleEffect(x, t, g, n, a, gone);
      && pc'.Register? && Recycling(pc'.g) && RecycleRank(x', pc'.g) < RecycleRank(x, g)
      && RecycleSection(x, t, g, n, a, gone) == RecycleSection(x', t, pc'.g, n, a, gone)
  {
  }

  lemma {:induction false} RecycleRuns(s: System, t: Tid, g: RegStage, n: string, a: AgentId, id: AgentId)
      returns (acts: seq<Act>)
    requires At(s, t) == Register(g, n, a) && Recycling(g) && t !in s.gone && id !in s.agents && a in s.agents
    requires g.GAcquire? ==> s.agents[a].lock.None?
    ensures Feasible(s, acts)
    ensures var s' := Run(s, acts);
      && At(s', t) == Register(GUnlock, n, a) && SameElse(s, s', t)
      && s'.agents == s.agents[a := RecycleSection(s.agents[a], t, g, n, a, s.gone)]
    decreases RecycleRank(s.agents[a], g)
  {
    hide Enabled, Next, RecycleEffect, RecycleRank;
    var c := Proceed(id, true);
    RecycleTurn(s, t, g, n, a, id);
    var s1 := Next(s, t, c);
    var (x', pc') := RecycleEffect(s.agents[a], t, g, n, a, s.gone);
    if g.GRefuse? || g.GRelease? {
      acts := [];
      assert Run(s1, acts) == s1;
    } else {
      RecycleSinks(s.agents[a], t, g, n, a, s.gone);
      acts := RecycleRuns(s1, t, pc'.g, n, a, id);
    }
    Prepend(s, t, c, acts);
    acts := [Act(t, c)] + acts;
  }

  /** An entry taken over: drained, owned by the registrant, alive, and counting from zero. */
  function TakenOver(x: Agent, t: Tid): Agent {
    var y := DrainedOut(DrainedOut(x, Inbox), Outbox);
    y.(owner := Some(t), dead := false, inbox := y.inbox.(processed := 0), outbox := y.outbox.(processed := 0))
  }

  /** What a registration by t under the name n makes of the registry. */
  ghost predicate Registered(s: System, s': System, t: Tid, n: string, id: AgentId) {
    && AllIdle(s') && s'.gLock.None?
    && (forall k: nat :: NamedAt(s, n, k) ==>
          var x := s.agents[s.list[k]];
          && s'.list == s.list
          && s'.agents == if OwnerAlive(x, s.gone) then s.agents else s.agents[s.list[k] := TakenOver(x, t)])
    && ((forall k: nat :: !NamedAt(s, n, k)) ==>
          && s'.list == [id] + s.list
          && s'.agents == s.agents[id := Agent(n, Some(t), false, None, EMPTY_MAILBOX, EMPTY_MAILBOX)])
  }

  lemma Takeover(x: Agent, t: Tid, a: AgentId, gone: set<Tid>)
    requires x.lock.None? && x.dead == x.owner.None?
    ensures RecycleSection(x, t, GAcquire, x.name, a, gone) == if OwnerAlive(x, gone) then x else TakenOver(x, t)
  {
    RecycleIs(x, t, a, gone);
  }

  /** The last steps, after an entry of the name was found. */
  lemma FoundRuns(s: System, t: Tid, n: string, k: nat, id: AgentId) returns (acts: seq<Act>)
    requires NamedAt(s, n, k) && At(s, t) == Register(GAcquire, n, s.list[k]) && OnlyRuns(s, t)
    requires t !in s.gone && id !in s.agents && AllUnlocked(s)
    requires forall a :: a in s.agents ==> s.agents[a].dead == s.agents[a].owner.None?
    ensures Feasible(s, acts)
    ensures var s', x := Run(s, acts), s.agents[s.list[k]];
      && AllIdle(s') && s'.gLock.None? && s'.list == s.list
      && s'.agents == if OwnerAlive(x, s.gone) then s.agents else s.agents[s.list[k] := TakenOver(x, t)]
  {
    hide RecycleSection, TakenOver, MailEffect, ReapEffect, RecycleEffect, UnloadStep, WalkStep, OwnerAlive;
    var a := s.list[k];
    var first := RecycleRuns(s, t, GAcquire, n, a, id);
    Takeover(s.agents[a], t, a, s.gone);
    var s1 := Run(s, first);
    var c := Proceed(id, true);
    var s2 := Next(s1, t, c);
    OnlyOneMoves(s1, s2, t, Idle);
    assert Run(s2, []) == s2;
    Prepend(s1, t, c, []);
    Chain(s, first, [Act(t, c)] + []);
    acts := first + ([Act(t, c)] + []);
  }

  lemma PublishRuns(s: System, t: Tid, n: string, a: AgentId, id: AgentId) returns (acts: seq<Act>)
    requires At(s, t) == Register(GPublish, n, a) && OnlyRuns(s, t) && t !in s.gone && id !in s.agents
    ensures Feasible(s, acts)
    ensures var s' := Run(s, acts); AllIdle(s') && s'.gLock.None? && s'.list == s.list && s'.agents == s.agents
  {
    hide MailEffect, ReapEffect, RecycleStep, UnloadStep, WalkStep, FreeAgent, Without;
    var c := Proceed(id, true);
    var s1 := Next(s, t, c);
    var s2 := Next(s1, t, c);
    OnlyOneMoves(s, s1, t, At(s1, t));
    OnlyOneMoves(s1, s2, t, Idle);
    assert Run(s2, []) == s2;
    Prepend(s1, t, c, []);
    acts := [Act(t, c)] + [];
    Prepend(s, t, c, acts);
    acts := [Act(t, c)] + acts;
  }

  /** The last steps, when the name is new and its directory can be built. */
  lemma InsertRuns(s: System, t: Tid, n: string, a: AgentId, id: AgentId, id2: AgentId) returns (acts: seq<Act>)
    requires At(s, t) == Register(GInsert, n, a) && OnlyRuns(s, t) && t !in s.gone
    requires id !in s.agents && id2 !in s.agents && id2 != id
    ensures Feasible(s, acts)
    ensures var s' := Run(s, acts);
      && AllIdle(s') && s'.gLock.None? && s'.list == [id] + s.list
      && s'.agents == s.agents[id := Agent(n, Some(t), false, None, EMPTY_MAILBOX, EMPTY_MAILBOX)]
  {
    hide MailEffect, ReapEffect, RecycleStep, UnloadStep, WalkStep, FreeAgent, Without;
    var s1 := Next(s, t, Proceed(id, true));
    OnlyOneMoves(s, s1, t, Register(GPublish, n, id));
    acts := PublishRuns(s1, t, n, id, id2);
    Prepend(s, t, Proceed(id, true), acts);
    acts := [Act(t, Proceed(id, true))] + acts;
  }

  lemma ScanToEnd(s: System, t: Tid, n: string, id: AgentId, id2: AgentId) returns (acts: seq<Act>)
    requires At(s, t) == Register(GScan(0), n, 0) && OnlyRuns(s, t) && t !in s.gone && AllUnlocked(s)
    requires id !in s.agents && id2 !in s.agents && id2 != id
    requires forall a :: a in s.agents ==> s.agents[a].dead == s.agents[a].owner.None?
    requires forall j: nat, k: nat :: NamedAt(s, n, j) && NamedAt(s, n, k) ==> j == k
    ensures Feasible(s, acts) && Registered(s, Run(s, acts), t, n, id)
  {
    hide TakenOver, OwnerAlive, Run, Feasible;
    var scan, k := ScanRuns(s, t, 0, n, 0, id);
    var s1 := Run(s, scan);
    if k < |s.list| {
      acts := FoundRuns(s1, t, n, k, id);
    } else {
      acts := InsertRuns(s1, t, n, 0, id, id2);
    }
    Chain(s, scan, acts);
    acts := scan + acts;
  }

  lemma SameEntries(s: System, s2: System, t: Tid, n: string, id: AgentId)
    requires s2.agents == s.agents && s2.list == s.list && s2.gone == s.gone
    ensures forall k: nat :: NamedAt(s2, n, k) == NamedAt(s, n, k)
    ensures forall s' :: Registered(s2, s', t, n, id) ==> Registered(s, s', t, n, id)
  {
    hide TakenOver, OwnerAlive;
    assert forall k: nat :: NamedAt(s2, n, k) == NamedAt(s, n, k);
  }

  lemma BeginRegister(s: System, t: Tid, n: string, id: AgentId)
    requires AllIdle(s) && NameOk(n) && t !in s.gone && !s.unloading && s.gLock.None? && id !in s.agents
    ensures Enabled(s, t, CallRegister(n)) && Enabled(Next(s, t, CallRegister(n)), t, Proceed(id, true))
    ensures var s2 := Next(Next(s, t, CallRegister(n)), t, Proceed(id, true));
      && s2.agents == s.agents && s2.list == s.list && s2.gone == s.gone
      && At(s2, t) == Register(GScan(0), n, 0) && OnlyRuns(s2, t)
  {
    hide NameOk, MailEffect, ReapEffect, RecycleEffect, UnloadStep, WalkStep;
    var s1 := Next(s, t, CallRegister(n));
    OnlyOneMoves(s, s1, t, Register(GLock, n, 0));
    OnlyOneMoves(s1, Next(s1, t, Proceed(id, true)), t, Register(GScan(0), n, 0));
  }

  /** A registration that nobody interrupts and whose directory can be built: the name is refused exactly while its
      entry has a live owner; an entry without one is taken over in place; and a new name gets a new entry. */
  lemma RegisterPass(before: seq<Act>, t: Tid, n: string) returns (acts: seq<Act>, id: AgentId)
    requires Feasible(INITIAL, before) && AllIdle(Run(INITIAL, before)) && NameOk(n)
    requires t !in Run(INITIAL, before).gone && !Run(INITIAL, before).unloading
    ensures id !in Run(INITIAL, before).agents && Feasible(Run(INITIAL, before), acts)
    ensures Registered(Run(INITIAL, before), Run(Run(INITIAL, before), acts), t, n, id)
  {
    hide NameOk, Registered, OwnerAlive, Good, Next, Run, Feasible;
    var s := Run(INITIAL, before);
    IdleIsUnlocked(before);
    OneOfEachName(before, n);
    id := FreshId(s.agents.Keys);
    assert id !in s.agents && id + 1 !in s.agents;
    var call, c := CallRegister(n), Proceed(id, true);
    BeginRegister(s, t, n, id);
    var s1 := Next(s, t, call);
    var s2 := Next(s1, t, c);
    SameEntries(s, s2, t, n, id);
    acts := ScanToEnd(s2, t, n, id, id + 1);
    Prepend(s1, t, c, acts);
    acts := [Act(t, c)] + acts;
    Prepend(s, t, call, acts);
    acts := [Act(t, call)] + acts;
  }

  lemma OneOfEachName(before: seq<Act>, n: string)
    requires Feasible(INITIAL, before)
    ensures var s := Run(INITIAL, before); forall j: nat, k: nat :: NamedAt(s, n, j) && NamedAt(s, n, k) ==> j == k
  {
    RegistryIsSound(before);
  }

  // ----- unload ---------------------------------------------------------

  lemma {:induction false} UnloadRuns(s: System, t: Tid, id: AgentId) returns (acts: seq<Act>)
    requires At(s, t) == Unload(XWalk) && OnlyRuns(s, t) && t !in s.gone && id !in s.agents && s.unloading
    ensures Feasible(s, acts)
    ensures var s' := Run(s, acts); AllIdle(s') && s'.list == [] && s'.gLock.None? && s'.unloading
    decreases |s.list|
  {
    hide MailEffect, ReapEffect, RecycleEffect, RegisterStep, WalkStep;
    var c := Proceed(id, true);
    var s1 := Next(s, t, c);
    if s.list == [] {
      OnlyOneMoves(s, s1, t, Idle);
      acts := [];
      assert Run(s1, acts) == s1;
    } else {
      assert forall u: Tid :: At(s1, u) == At(s, u);
      acts := UnloadRuns(s1, t, id);
    }
    Prepend(s, t, c, acts);
    acts := [Act(t, c)] + acts;
  }

  /** Unload, which starts only when no thread is inside, runs to its end and leaves nothing: no entry, no list, no task
      reference. */
  lemma UnloadPass(before: seq<Act>, t: Tid) returns (acts: seq<Act>)
    requires Feasible(INITIAL, before) && AllIdle(Run(INITIAL, before))
    requires t !in Run(INITIAL, before).gone && !Run(INITIAL, before).unloading
    ensures Feasible(INITIAL, before + acts)
    ensures var s' := Run(INITIAL, before + acts);
      AllIdle(s') && s'.agents == map[] && s'.list == [] && forall u: Tid :: Refs(s', u) == 0
  {
    hide Good, MailEffect, ReapEffect, RecycleEffect, RegisterStep, WalkStep;
    var s := Run(INITIAL, before);
    IdleIsUnlocked(before);
    var id := FreshId(s.agents.Keys);
    assert id !in s.agents;
    var c := Proceed(id, true);
    var s1 := Next(s, t, CallUnload);
    var s2 := Next(s1, t, c);
    OnlyOneMoves(s, s1, t, Unload(XLock));
    OnlyOneMoves(s1, s2, t, Unload(XWalk));
    acts := UnloadRuns(s2, t, id);
    Prepend(s1, t, c, acts);
    acts := [Act(t, c)] + acts;
    Prepend(s, t, CallUnload, acts);
    acts := [Act(t, CallUnload)] + acts;
    Chain(INITIAL, before, acts);
    UnloadFreesEverything(before + acts);
  }
}
