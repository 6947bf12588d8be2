/** What holds in every interleaving of agentfs. */
module AgentfsTheorems {
  import opened Options
  import opened AgentfsModel
  import opened AgentfsInvariant
  import opened AgentfsSteps

  // ----- every reachable state is good ----------------------------------

  /** Off the list goes the entry that its registrant still holds. */
  lemma DelistOrphans(s: System, s': System, t: Tid)
    requires Listed(s) && NoOrphans(s) && At(s, t).Register? && At(s, t).g.GDelist?
    requires var pc := At(s, t); s' == Go(s.(list := Without(s.list, pc.a)), t, Register(GUnlockDelisted, pc.n, pc.a))
    ensures NoOrphans(s')
  {
    WithoutIs(s.list, At(s, t).a);
    forall a | a in s'.agents && a !in s'.list ensures exists u: Tid :: Builds(At(s', u), a) {
      var u: Tid :| u == t || Builds(At(s, u), a);
      assert if a == At(s, t).a then Builds(At(s', t), a)
        else exists v: Tid :: Builds(At(s, v), a) && Builds(At(s', v), a);
    }
  }

  /** Steps that add a listed entry, or free the one the thread was taking down. */
  lemma EntryOrphans(s: System, s': System, t: Tid, b: AgentId)
    requires NoOrphans(s) && (forall u: Tid :: u != t ==> At(s', u) == At(s, u))
    requires forall a :: a in s.list ==> a in s'.list
    requires forall a :: a in s'.agents && a !in s'.list ==> a in s.agents && a != b
    requires forall a :: Builds(At(s, t), a) ==> a == b
    ensures NoOrphans(s')
  {
    forall a | a in s'.agents && a !in s'.list ensures exists u: Tid :: Builds(At(s', u), a) {
      var u: Tid :| Builds(At(s, u), a);
      assert Builds(At(s', u), a);
    }
  }

  lemma RegisterOrphans(s: System, t: Tid, newId: AgentId, ok: bool)
    requires Listed(s) && Threads(s) && NoOrphans(s)
    requires At(s, t).Register? && Unblocked(s, At(s, t)) && newId !in s.agents
    ensures var pc := At(s, t); NoOrphans(RegisterStep(s, t, pc.g, pc.n, pc.a, newId, ok))
  {
    hide Listed, Threads, NoOrphans, Without, RecycleStep;
    var pc := At(s, t);
    var s' := RegisterStep(s, t, pc.g, pc.n, pc.a, newId, ok);
    if pc.g.GDelist? {
      DelistOrphans(s, s', t);
    } else if pc.g.GInsert? {
      EntryOrphans(s, s', t, newId);
    } else if pc.g.GFree? {
      EntryOrphans(s, s', t, pc.a);
    } else if Recycling(pc.g) {
      RecycleOrphans(s, t);
    } else {
      MoveOrphans(s, t, newId, ok);
    }
  }

  lemma MoveOrphans(s: System, t: Tid, newId: AgentId, ok: bool)
    requires Threads(s) && NoOrphans(s) && At(s, t).Register? && !Recycling(At(s, t).g)
    requires !At(s, t).g.GDelist? && !At(s, t).g.GInsert? && !At(s, t).g.GFree?
    ensures var pc := At(s, t); NoOrphans(RegisterStep(s, t, pc.g, pc.n, pc.a, newId, ok))
  {
    hide Threads, NoOrphans, Without, RecycleStep;
    var pc := At(s, t);
    if pc.g.GBuild? { BuildsListed(s, t); }
    OrphansFrame(s, RegisterStep(s, t, pc.g, pc.n, pc.a, newId, ok), t);
  }

  lemma RecycleOrphans(s: System, t: Tid)
    requires NoOrphans(s) && At(s, t).Register? && Recycling(At(s, t).g) && At(s, t).a in s.agents
    ensures var pc := At(s, t); NoOrphans(RecycleStep(s, t, pc.g, pc.n, pc.a))
  {
    hide NoOrphans, RecycleEffect;
    var pc := At(s, t);
    OrphansFrame(s, RecycleStep(s, t, pc.g, pc.n, pc.a), t);
  }

  lemma BuildsListed(s: System, t: Tid)
    requires Threads(s) && At(s, t).Register? && At(s, t).g.GBuild?
    ensures At(s, t).a in s.list
  {
    assert PcOk(s, t, At(s, t));
  }

  /** During unload no thread builds, so every entry is listed. */
  lemma AllListed(s: System)
    requires NoOrphans(s) && Threads(s) && s.unloading
    ensures forall a :: a in s.agents ==> a in s.list
  {
  }

  lemma UnloadOrphans(s: System, t: Tid)
    requires Inv(s) && NoOrphans(s) && At(s, t).Unload? && Unblocked(s, At(s, t))
    ensures NoOrphans(UnloadStep(s, t, At(s, t).x))
  {
    hide AgentsOk, Locks, Private, RefsOk, LocalOk, Life, NoOrphans, PcOk;
    assert s.unloading;
    AllListed(s);
    AllListedNoOrphans(UnloadStep(s, t, At(s, t).x));
  }

  lemma AllListedNoOrphans(s: System)
    requires forall a :: a in s.agents ==> a in s.list
    ensures NoOrphans(s)
  {
  }

  lemma InvParts(s: System)
    requires Inv(s)
    ensures Listed(s) && Threads(s)
  {
  }

  lemma StepKeeps(s: System, t: Tid, c: Choice)
    requires Good(s) && Enabled(s, t, c)
    ensures Good(Next(s, t, c))
  {
    hide Inv, NoOrphans;
    StepKeepsInv(s, t, c);
    var s' := Next(s, t, c);
    if c.Proceed? && At(s, t).Register? {
      InvParts(s);
      RegisterOrphans(s, t, c.newId, c.ok);
    } else if c.Proceed? && At(s, t).Unload? {
      UnloadOrphans(s, t);
    } else {
      assert s'.list == s.list && s'.agents.Keys == s.agents.Keys;
      OrphansFrame(s, s', t);
    }
  }

  lemma {:induction false} RunKeeps(s: System, acts: seq<Act>)
    requires Good(s) && Feasible(s, acts)
    ensures Good(Run(s, acts))
    decreases |acts|
  {
    hide Good;
    if acts != [] {
      StepKeeps(s, acts[0].t, acts[0].c);
      RunKeeps(Next(s, acts[0].t, acts[0].c), acts[1..]);
    }
  }

  lemma EveryInterleavingIsGood(acts: seq<Act>)
    requires Feasible(INITIAL, acts)
    ensures Good(Run(INITIAL, acts))
  {
    InitialInv();
    RunKeeps(INITIAL, acts);
  }

  // ----- mailboxes ------------------------------------------------------

  /** Order, bounds and counters of one mailbox. */
  predicate Sound(mb: Mailbox) {
    && mb.accepted == Gist(mb.removed) + mb.messages
    && |mb.messages| == mb.queuedMessages <= AGENTFS_MAX_QUEUE_MSGS
    && Sum(mb.messages) == mb.queuedBytes <= AGENTFS_MAX_QUEUE_BYTES
  }

  /** Whenever no thread is inside an agent's lock, both its mailboxes are sound, and empty once it is dead. */
  lemma MailboxesAreSound(acts: seq<Act>, a: AgentId)
    requires Feasible(INITIAL, acts)
    requires a in Run(INITIAL, acts).agents && Run(INITIAL, acts).agents[a].lock.None?
    ensures var x := Run(INITIAL, acts).agents[a];
      Sound(x.inbox) && Sound(x.outbox) && (x.dead ==> x.inbox.messages == [] && x.outbox.messages == [])
  {
    EveryInterleavingIsGood(acts);
    assert AgentOk(Run(INITIAL, acts), a);
  }

  /** Even inside the lock nothing is lost, duplicated or reordered, and the bounds hold. */
  lemma NeverLosesOrder(acts: seq<Act>, a: AgentId, k: Kind)
    requires Feasible(INITIAL, acts) && a in Run(INITIAL, acts).agents
    ensures var mb := Box(Run(INITIAL, acts).agents[a], k);
      && mb.accepted == Gist(mb.removed) + mb.messages
      && |mb.messages| <= AGENTFS_MAX_QUEUE_MSGS && Sum(mb.messages) <= AGENTFS_MAX_QUEUE_BYTES
  {
    EveryInterleavingIsGood(acts);
    assert AgentOk(Run(INITIAL, acts), a);
  }

  /** Entry a is never freed along the run. */
  ghost predicate Kept(s: System, acts: seq<Act>, a: AgentId)
    requires Feasible(s, acts)
    decreases |acts|
  {
    a in s.agents && (acts == [] || Kept(Next(s, acts[0].t, acts[0].c), acts[1..], a))
  }

  predicate Extends(x: Agent, x': Agent) {
    && x.inbox.accepted <= x'.inbox.accepted && x.inbox.removed <= x'.inbox.removed
    && x.outbox.accepted <= x'.outbox.accepted && x.outbox.removed <= x'.outbox.removed
  }

  lemma ExtendsItself(x: Agent)
    ensures Extends(x, x)
  {
  }

  lemma MailExtends(x: Agent, t: Tid, a: AgentId, k: Kind, m: MailStage)
    ensures Extends(x, MailEffect(x, t, a, k, m).0)
  {
  }

  lemma ReapExtends(x: Agent, t: Tid, r: ReapStage, a: AgentId, rest: seq<AgentId>)
    ensures Extends(x, ReapEffect(x, t, r, a, rest).0)
  {
  }

  lemma RecycleExtends(x: Agent, t: Tid, g: RegStage, n: string, a: AgentId, gone: set<Tid>)
    ensures Extends(x, RecycleEffect(x, t, g, n, a, gone).0)
  {
  }

  lemma StepExtendsHistory(s: System, t: Tid, c: Choice, a: AgentId)
    requires Enabled(s, t, c) && a in s.agents && a in Next(s, t, c).agents
    ensures Extends(s.agents[a], Next(s, t, c).agents[a])
  {
    hide MailEffect, ReapEffect, RecycleEffect, Extends, RegisterStep;
    ExtendsItself(s.agents[a]);
    match At(s, t)
    case Mail(_, k, m) => MailExtends(s.agents[a], t, a, k, m);
    case Reap(r, _, rest) => ReapExtends(s.agents[a], t, r, a, rest);
    case Register(_, _, _) => if c.Proceed? { RegisterExtends(s, t, c.newId, c.ok, a); }
    case _ =>
  }

  lemma RegisterExtends(s: System, t: Tid, newId: AgentId, ok: bool, a: AgentId)
    requires At(s, t).Register? && Unblocked(s, At(s, t)) && newId !in s.agents && a in s.agents
    ensures var pc := At(s, t);
      var s' := RegisterStep(s, t, pc.g, pc.n, pc.a, newId, ok);
      a in s'.agents ==> Extends(s.agents[a], s'.agents[a])
  {
    hide RecycleEffect, Extends;
    ExtendsItself(s.agents[a]);
    RecycleExtends(s.agents[a], t, At(s, t).g, At(s, t).n, a, s.gone);
  }

  /** A removal is final: whatever was taken stays taken, by the same taker, at the same place. */
  lemma {:induction false} HistoryOnlyGrows(s: System, acts: seq<Act>, a: AgentId)
    requires Feasible(s, acts) && Kept(s, acts, a)
    ensures a in Run(s, acts).agents && Extends(s.agents[a], Run(s, acts).agents[a])
    decreases |acts|
  {
    if acts != [] {
      StepExtendsHistory(s, acts[0].t, acts[0].c, a);
      HistoryOnlyGrows(Next(s, acts[0].t, acts[0].c), acts[1..], a);
    }
  }

  // ----- registry -------------------------------------------------------

  /** Names are unique and task references are exactly the owner pointers, in every state;
      whenever nobody is inside the global lock, an agent is dead exactly when it has no owner. */
  lemma RegistryIsSound(acts: seq<Act>)
    requires Feasible(INITIAL, acts)
    ensures var s := Run(INITIAL, acts);
      && (forall i, j :: 0 <= i < j < |s.list| ==>
            s.list[i] in s.agents && s.list[j] in s.agents && s.agents[s.list[i]].name != s.agents[s.list[j]].name)
      && (forall u: Tid :: Refs(s, u) == |Owned(s.agents, u)|)
      && (s.gLock.None? ==> forall a :: a in s.agents ==> s.agents[a].dead == s.agents[a].owner.None?)
  {
    EveryInterleavingIsGood(acts);
    var s := Run(INITIAL, acts);
    if s.gLock.None? {
      forall a | a in s.agents ensures s.agents[a].dead == s.agents[a].owner.None? { assert AgentOk(s, a); }
    }
  }

  /** A thread that holds an entry of the name it registers is refused exactly while the entry's owner is alive, and
      takes the entry over otherwise, whether or not the reaper has been there. */
  lemma RefusedExactlyWhileOwned(acts: seq<Act>, t: Tid, newId: AgentId, ok: bool)
    requires Feasible(INITIAL, acts) && Enabled(Run(INITIAL, acts), t, Proceed(newId, ok))
    requires At(Run(INITIAL, acts), t).Register? && At(Run(INITIAL, acts), t).g.GHave?
    ensures var s, pc := Run(INITIAL, acts), At(Run(INITIAL, acts), t);
      pc.a in s.agents && s.agents[pc.a].name == pc.n &&
      var alive := s.agents[pc.a].owner.Some? && s.agents[pc.a].owner.value !in s.gone;
      At(Next(s, t, Proceed(newId, ok)), t) == Register(if alive then GRefuse else GDrain(Inbox), pc.n, pc.a)
  {
    var s := Run(INITIAL, acts);
    EveryInterleavingIsGood(acts);
    assert PcOk(s, t, At(s, t));
    assert HoldsGlobal(At(s, t)) && s.gLock == Some(t);
    assert AgentOk(s, At(s, t).a);
  }

  /** The reaper's walk takes up an entry exactly when it has an owner and that owner is gone. */
  lemma ReaperTakesExactlyTheAbandoned(acts: seq<Act>, t: Tid, newId: AgentId, ok: bool)
    requires Feasible(INITIAL, acts) && Enabled(Run(INITIAL, acts), t, Proceed(newId, ok))
    requires var pc := At(Run(INITIAL, acts), t); pc.Reap? && pc.r.SWalk? && pc.rest != []
    ensures var s, pc := Run(INITIAL, acts), At(Run(INITIAL, acts), t);
      var a := pc.rest[0];
      a in s.agents &&
      At(Next(s, t, Proceed(newId, ok)), t) ==
        if s.agents[a].owner.Some? && s.agents[a].owner.value in s.gone then Reap(SAcquire, a, pc.rest[1..])
        else Reap(SWalk, 0, pc.rest[1..])
  {
    var s, pc := Run(INITIAL, acts), At(Run(INITIAL, acts), t);
    EveryInterleavingIsGood(acts);
    assert PcOk(s, t, pc);
    assert HoldsGlobal(pc) && s.gLock == Some(t);
    assert pc.rest[0] in s.list;
    assert AgentOk(s, pc.rest[0]);
  }

  lemma EffectsKill(x: Agent, t: Tid, a: AgentId, pc: Pc, gone: set<Tid>)
    ensures pc.Mail? ==> MailEffect(x, t, a, pc.k, pc.m).0.dead == x.dead
    ensures pc.Reap? && !pc.r.SDead? ==> ReapEffect(x, t, pc.r, a, pc.rest).0.dead == x.dead
    ensures pc.Register? && RecycleEffect(x, t, pc.g, pc.n, a, gone).0.dead ==> x.dead
  {
  }

  /** Only the reaper sets the flag. */
  lemma OnlyTheReaperKills(s: System, t: Tid, c: Choice, a: AgentId)
    requires Enabled(s, t, c) && a in s.agents && a in Next(s, t, c).agents
    requires !s.agents[a].dead && Next(s, t, c).agents[a].dead
    ensures At(s, t).Reap? && At(s, t).r.SDead? && At(s, t).a == a
  {
    hide MailEffect, ReapEffect, RecycleEffect;
    EffectsKill(s.agents[a], t, a, At(s, t), s.gone);
  }

  /** A step turns an agent dead only when its owner is gone. */
  lemma OnlyTheOwnerlessDie(s: System, t: Tid, c: Choice, a: AgentId)
    requires Good(s) && Enabled(s, t, c) && a in s.agents && a in Next(s, t, c).agents
    requires !s.agents[a].dead && Next(s, t, c).agents[a].dead
    ensures !OwnerAlive(s.agents[a], s.gone)
  {
    hide Enabled, Next, LocalOk, Unblocked;
    OnlyTheReaperKills(s, t, c, a);
    assert s.gLock == Some(t) <==> HoldsGlobal(At(s, t));
    assert AgentOk(s, a);
  }

  /** No interleaving of reaper and re-registration marks dead an agent whose current owner is alive. */
  lemma NobodyAliveIsReaped(acts: seq<Act>, t: Tid, c: Choice, a: AgentId)
    requires Feasible(INITIAL, acts) && Enabled(Run(INITIAL, acts), t, c)
    requires a in Run(INITIAL, acts).agents && a in Next(Run(INITIAL, acts), t, c).agents
    requires !Run(INITIAL, acts).agents[a].dead && OwnerAlive(Run(INITIAL, acts).agents[a], Run(INITIAL, acts).gone)
    ensures !Next(Run(INITIAL, acts), t, c).agents[a].dead
  {
    hide Feasible, Run, Next, Unblocked, Good, Published;
    EveryInterleavingIsGood(acts);
    if Next(Run(INITIAL, acts), t, c).agents[a].dead { OnlyTheOwnerlessDie(Run(INITIAL, acts), t, c, a); }
  }

  // ----- memory and progress --------------------------------------------

  /** Every entry a thread is about to touch is still allocated. */
  lemma NoUseAfterFree(s: System, t: Tid)
    requires Good(s)
    ensures match At(s, t)
      case Mail(a, _, _) => a in s.agents
      case Reap(r, a, rest) =>
        (r.SLock? || r.SWalk? || a in s.agents) && (r.SLock? || forall b :: b in rest ==> b in s.agents)
      case Register(g, _, a) => Recycling(g) || Builds(At(s, t), a) ==> a in s.agents
      case _ => true
  {
    assert PcOk(s, t, At(s, t));
  }

  /** A thread inside an agent's lock waits for nothing. */
  lemma HolderMoves(s: System, t: Tid, a: AgentId)
    requires Good(s) && HoldsAgent(At(s, t), a)
    ensures Unblocked(s, At(s, t))
  {
    NoUseAfterFree(s, t);
  }

  /** A blocked thread waits for the holder of a lock, who is one position closer to the end. */
  lemma BlockedWaitsForHolder(s: System, t: Tid)
    requires Good(s) && At(s, t) != Idle && !Unblocked(s, At(s, t))
    ensures exists u: Tid :: (exists a :: HoldsAgent(At(s, u), a)) || (HoldsGlobal(At(s, u)) && !HoldsGlobal(At(s, t)))
  {
    NoUseAfterFree(s, t);
    var pc := At(s, t);
    if pc.Mail? || (pc.Reap? && pc.r.SAcquire?) || (pc.Register? && pc.g.GAcquire?) {
      assert HoldsAgent(At(s, s.agents[pc.a].lock.value), pc.a);
    } else {
      assert HoldsGlobal(At(s, s.gLock.value));
    }
  }

  /** Inside a call, and not on the wait queue of an empty mailbox. */
  predicate Awake(pc: Pc) { pc != Idle && !(pc.Mail? && pc.m.RWait?) }

  ghost predicate CanStep(s: System, t: Tid) {
    exists n: AgentId, ok: bool :: Enabled(s, t, Proceed(n, ok))
  }

  lemma HolderOrItsHolderMoves(s: System, t: Tid)
    requires Good(s) && Awake(At(s, t))
    ensures exists u: Tid :: Awake(At(s, u)) && Unblocked(s, At(s, u))
  {
    if !Unblocked(s, At(s, t)) {
      BlockedWaitsForHolder(s, t);
      var u: Tid :| (exists a :: HoldsAgent(At(s, u), a)) || (HoldsGlobal(At(s, u)) && !HoldsGlobal(At(s, t)));
      if a :| HoldsAgent(At(s, u), a) {
        HolderMoves(s, u, a);
      } else if !Unblocked(s, At(s, u)) {
        BlockedWaitsForHolder(s, u);
        var v: Tid :| (exists a :: HoldsAgent(At(s, v), a)) || (HoldsGlobal(At(s, v)) && !HoldsGlobal(At(s, u)));
        var a :| HoldsAgent(At(s, v), a);
        HolderMoves(s, v, a);
      }
    }
  }

  lemma FreshId(ids: set<AgentId>) returns (n: AgentId)
    ensures forall a :: a in ids ==> a < n
    decreases ids
  {
    if ids == {} {
      n := 0;
    } else {
      var a :| a in ids;
      var m := FreshId(ids - {a});
      n := if a < m then m else a + 1;
      assert forall b :: b in ids ==> b == a || b in ids - {a};
    }
  }

  /** No interleaving deadlocks: while any thread is inside a call and not asleep on an empty mailbox, some thread that
      is not asleep either can take its next step. */
  lemma NoDeadlock(acts: seq<Act>, t: Tid)
    requires Feasible(INITIAL, acts) && Awake(At(Run(INITIAL, acts), t))
    ensures exists u: Tid :: Awake(At(Run(INITIAL, acts), u)) && CanStep(Run(INITIAL, acts), u)
  {
    var s := Run(INITIAL, acts);
    EveryInterleavingIsGood(acts);
    HolderOrItsHolderMoves(s, t);
    var u: Tid :| Awake(At(s, u)) && Unblocked(s, At(s, u));
    var n := FreshId(s.agents.Keys);
    assert n !in s.agents;
    assert Enabled(s, u, Proceed(n, true));
    assert CanStep(s, u);
  }

  /** Once unload has emptied the list, every entry is freed and every task reference is returned. */
  lemma UnloadFreesEverything(acts: seq<Act>)
    requires Feasible(INITIAL, acts) && Run(INITIAL, acts).unloading && Run(INITIAL, acts).list == []
    ensures var s := Run(INITIAL, acts); s.agents == map[] && forall u: Tid :: Refs(s, u) == 0
  {
    var s := Run(INITIAL, acts);
    EveryInterleavingIsGood(acts);
    AllListed(s);
    assert forall u: Tid :: Owned(s.agents, u) == {};
  }

  // ----- readiness ------------------------------------------------------

  datatype Mask = Mask(readable: bool, writable: bool, hangup: bool)

  /** The event mask reported for one mailbox, under the agent's lock. */
  function PollMask(x: Agent, k: Kind): Mask {
    var mb := Box(x, k);
    Mask(mb.messages != [],
         !x.dead && mb.queuedMessages < AGENTFS_MAX_QUEUE_MSGS && mb.queuedBytes < AGENTFS_MAX_QUEUE_BYTES,
         x.dead)
  }

  /** What a read or a write entering the lock now would do. */
  predicate ReadTakes(x: Agent, t: Tid, a: AgentId, k: Kind) {
    var pc := MailEffect(x, t, a, k, RCheck).1;
    pc.Mail? && pc.m.RBytes?
  }

  predicate ReadSleeps(x: Agent, t: Tid, a: AgentId, k: Kind) {
    var pc := MailEffect(x, t, a, k, RCheck).1;
    pc.Mail? && pc.m.RRelease?
  }

  predicate WriteAccepted(x: Agent, t: Tid, a: AgentId, k: Kind, m: Message) {
    var pc := MailEffect(x, t, a, k, WCheck(m)).1;
    pc.Mail? && pc.m.WBytes?
  }

  lemma WouldDo(x: Agent, t: Tid, a: AgentId, k: Kind, m: Message)
    ensures ReadTakes(x, t, a, k) <==> Box(x, k).messages != []
    ensures ReadSleeps(x, t, a, k) <==> Box(x, k).messages == [] && !x.dead
    ensures WriteAccepted(x, t, a, k, m) <==> !x.dead && !Full(Box(x, k), |m|)
  {
  }

  /** What the poller knows inside the lock. */
  lemma PollHolds(s: System, t: Tid, a: AgentId, k: Kind)
    requires Good(s) && At(s, t) == Mail(a, k, PCheck)
    ensures a in s.agents
    ensures var x := s.agents[a];
      Box(x, k).queuedBytes == Sum(Box(x, k).messages) && (x.dead ==> Box(x, k).messages == [])
  {
    NoUseAfterFree(s, t);
    assert s.agents[a].lock == Some(t) <==> HoldsAgent(At(s, t), a);
    assert AgentOk(s, a);
  }

  /** What the bits promise: a read now finds a message, or at least does not sleep; a write of m is accepted
      exactly when it also fits the bytes left; a hung-up mailbox is never readable or writable. */
  lemma PollTellsTheTruth(acts: seq<Act>, t: Tid, a: AgentId, k: Kind, m: Message)
    requires Feasible(INITIAL, acts) && At(Run(INITIAL, acts), t) == Mail(a, k, PCheck) && 0 < |m|
    ensures a in Run(INITIAL, acts).agents
    ensures var x := Run(INITIAL, acts).agents[a];
      var mask := PollMask(x, k);
      && (mask.readable <==> ReadTakes(x, t, a, k))
      && (mask.readable || mask.hangup <==> !ReadSleeps(x, t, a, k))
      && (mask.writable && |m| <= AGENTFS_MAX_QUEUE_BYTES - Sum(Box(x, k).messages) <==> WriteAccepted(x, t, a, k, m))
      && (mask.hangup ==> !mask.readable && !mask.writable)
  {
    hide Feasible, Run, Sum, ReadTakes, ReadSleeps, WriteAccepted, Good;
    EveryInterleavingIsGood(acts);
    PollHolds(Run(INITIAL, acts), t, a, k);
    WouldDo(Run(INITIAL, acts).agents[a], t, a, k, m);
  }
}
