/** The remaining steps of the agentfs protocol: new entries, failed entries, unload, calls. */
module AgentfsSteps {
  import opened Options
  import opened AgentfsModel
  import opened AgentfsInvariant

  // ----- a new entry ----------------------------------------------------

  /** While t holds the global lock no other thread does. */
  lemma OnlyHolder(s: System, t: Tid, u: Tid)
    requires Locks(s) && HoldsGlobal(At(s, t)) && HoldsGlobal(At(s, u))
    ensures u == t
  {
    assert s.gLock == Some(t) && s.gLock == Some(u);
  }

  /** Positions that do not hold the global lock survive a longer list. */
  lemma PcOkInsert(s: System, s': System, u: Tid, pc: Pc, b: AgentId)
    requires PcOk(s, u, pc) && !HoldsGlobal(pc) && b !in s.agents
    requires s'.list == [b] + s.list && (forall a :: a in s.agents ==> a in s'.agents && s'.agents[a] == s.agents[a])
    ensures PcOk(s', u, pc)
  {
  }

  lemma InsertThreads(s: System, s': System, t: Tid, b: AgentId, n: string)
    requires Locks(s) && Threads(s) && Listed(s) && At(s, t).Register? && At(s, t).g.GInsert? && At(s, t).n == n
    requires b !in s.agents
    requires s'.list == [b] + s.list && (forall a :: a in s.agents ==> a in s'.agents && s'.agents[a] == s.agents[a])
    requires b in s'.agents && s'.agents[b].owner == Some(t) && !s'.agents[b].dead
    requires s'.threads == s.threads[t := Register(GPublish, n, b)] && s'.gone == s.gone && s'.unloading == s.unloading
    ensures Threads(s')
  {
    forall u: Tid ensures PcOk(s', u, At(s', u)) {
      if u != t {
        assert PcOk(s, u, At(s, u));
        if HoldsGlobal(At(s, u)) { OnlyHolder(s, t, u); }
        PcOkInsert(s, s', u, At(s, u), b);
      }
    }
    forall u: Tid ensures At(s', u).Unload? ==> At(s, u).Unload? { }
    assert !s.unloading;
  }

  lemma InsertListed(s: System, s': System, b: AgentId, n: string)
    requires Listed(s) && Unnamed(s, n, |s.list|) && b !in s.agents
    requires s'.list == [b] + s.list && s'.agents.Keys == s.agents.Keys + {b} && s'.agents[b].name == n
    requires forall a :: a in s.agents ==> s'.agents[a] == s.agents[a]
    ensures Listed(s')
  {
  }

  lemma InsertAgents(s: System, s': System, t: Tid, b: AgentId, n: string)
    requires Locks(s) && AgentsOk(s) && At(s, t).Register? && At(s, t).g.GInsert? && At(s, t).n == n && b !in s.agents
    requires s'.agents == s.agents[b := Agent(n, Some(t), false, None, EMPTY_MAILBOX, EMPTY_MAILBOX)]
    requires s'.threads == s.threads[t := Register(GPublish, n, b)] && s'.gone == s.gone && s'.gLock == s.gLock
    ensures AgentsOk(s')
  {
    assert s.gLock == Some(t) <==> HoldsGlobal(At(s, t));
    forall a | a in s'.agents ensures AgentOk(s', a) {
      if a != b {
        assert AgentOk(s, a);
        assert s.agents[a].lock == Some(t) <==> HoldsAgent(At(s, t), a);
        LifeDefault(s.agents[a], a, At(s, t), t, s.gone);
        LifeDefault(s.agents[a], a, At(s', t), t, s.gone);
        assert PcOf(s', s.agents[a].lock) == PcOf(s, s.agents[a].lock);
      }
    }
  }

  lemma InsertLocks(s: System, s': System, t: Tid, b: AgentId, n: string)
    requires Locks(s) && Threads(s) && Listed(s) && At(s, t).Register? && At(s, t).g.GInsert? && At(s, t).n == n
    requires b !in s.agents
    requires s'.agents == s.agents[b := Agent(n, Some(t), false, None, EMPTY_MAILBOX, EMPTY_MAILBOX)]
    requires s'.threads == s.threads[t := Register(GPublish, n, b)] && s'.gLock == s.gLock
    ensures Locks(s')
  {
    forall u: Tid ensures !HoldsAgent(At(s', u), b) {
      assert PcOk(s, u, At(s, u));
    }
  }

  lemma InsertPrivate(s: System, s': System, t: Tid, b: AgentId, n: string)
    requires Private(s) && Threads(s) && Listed(s) && b !in s.agents && !At(s, t).Mail?
    requires s'.threads == s.threads[t := Register(GPublish, n, b)]
    ensures Private(s')
  {
    forall u: Tid, v: Tid, a | Builds(At(s', u), a) ensures !(At(s', v).Mail? && At(s', v).a == a) {
      assert PcOk(s, v, At(s, v));
      if u != t { assert Builds(At(s, u), a); }
    }
  }

  lemma InsertKeeps(s: System, t: Tid, b: AgentId, ok: bool)
    requires Inv(s) && t !in s.gone && At(s, t).Register? && At(s, t).g.GInsert? && b !in s.agents
    ensures var pc := At(s, t); Inv(RegisterStep(s, t, pc.g, pc.n, pc.a, b, ok))
  {
    hide PcOk, Private, Threads, AgentsOk, Listed, Locks, RefsOk;
    var pc := At(s, t);
    var s' := RegisterStep(s, t, pc.g, pc.n, pc.a, b, ok);
    InsertUnnamed(s, t);
    InsertLocks(s, s', t, b, pc.n);
    InsertListed(s, s', b, pc.n);
    InsertThreads(s, s', t, b, pc.n);
    InsertPrivate(s, s', t, b, pc.n);
    InsertAgents(s, s', t, b, pc.n);
    TakeRefKeeps(s, s', b, t);
  }

  lemma InsertUnnamed(s: System, t: Tid)
    requires Threads(s) && At(s, t).Register? && At(s, t).g.GInsert?
    ensures Unnamed(s, At(s, t).n, |s.list|)
  {
    assert PcOk(s, t, At(s, t));
  }

  // ----- taking a failed entry down again -------------------------------

  lemma {:induction false} WithoutIs(list: seq<AgentId>, a: AgentId)
    requires NoDup(list)
    ensures forall b :: b in Without(list, a) <==> b in list && b != a
    ensures NoDup(Without(list, a))
  {
    if list != [] && list[0] != a {
      WithoutIs(list[1..], a);
      assert forall b :: b in list <==> b == list[0] || b in list[1..];
      var l := Without(list, a);
      forall j | 0 < j < |l| ensures l[j] != l[0] {
        assert l[j] in Without(list[1..], a);
      }
    } else if list != [] {
      assert forall b :: b in list <==> b == list[0] || b in list[1..];
    }
  }

  /** Distinct names, stated without indices. */
  lemma ListedBySet(s: System, list: seq<AgentId>)
    requires Listed(s) && (forall b :: b in list ==> b in s.list)
    requires NoDup(list)
    ensures Listed(s.(list := list))
  {
    forall i | 0 <= i < |list| ensures list[i] in s.list && list[i] in s.agents { }
    forall i, j | 0 <= i < j < |list| ensures s.agents[list[i]].name != s.agents[list[j]].name {
      var k, l :| 0 <= k < |s.list| && 0 <= l < |s.list| && s.list[k] == list[i] && s.list[l] == list[j];
      assert k != l;
    }
  }

  /** The registrant that takes its entry off the list: nobody else stands on that entry. */
  lemma DelistThreads(s: System, s': System, t: Tid)
    requires Locks(s) && Threads(s) && Private(s) && Listed(s) && At(s, t).Register? && At(s, t).g.GDelist?
    requires var pc := At(s, t); s' == Go(s.(list := Without(s.list, pc.a)), t, Register(GUnlockDelisted, pc.n, pc.a))
    ensures Threads(s')
  {
    var pc := At(s, t);
    WithoutIs(s.list, pc.a);
    assert PcOk(s, t, pc);
    forall u: Tid ensures PcOk(s', u, At(s', u)) {
      if u != t {
        assert PcOk(s, u, At(s, u));
        assert Builds(pc, pc.a);
        if HoldsGlobal(At(s, u)) { OnlyHolder(s, t, u); }
        DelistPcOk(s, s', t, u, pc.a);
      }
    }
    forall u: Tid ensures At(s', u).Unload? ==> At(s, u).Unload? { }
    assert !s.unloading;
  }

  lemma DelistPcOk(s: System, s': System, t: Tid, u: Tid, a: AgentId)
    requires PcOk(s, u, At(s, u)) && u != t && !HoldsGlobal(At(s, u)) && !(At(s, u).Mail? && At(s, u).a == a)
    requires a in s.agents && s.agents[a].owner == Some(t)
    requires s'.agents == s.agents && (forall b :: b in s'.list <==> b in s.list && b != a)
    ensures PcOk(s', u, At(s, u))
  {
  }

  lemma DelistKeeps(s: System, t: Tid, ok: bool)
    requires Inv(s) && t !in s.gone && At(s, t).Register? && At(s, t).g.GDelist?
    ensures var pc := At(s, t); Inv(RegisterStep(s, t, pc.g, pc.n, pc.a, 0, ok))
  {
    hide PcOk, Private, Threads, AgentsOk, Locks, RefsOk;
    var pc := At(s, t);
    var pc' := Register(GUnlockDelisted, pc.n, pc.a);
    var s', s1 := RegisterStep(s, t, pc.g, pc.n, pc.a, 0, ok), Go(s, t, pc');
    WithoutIs(s.list, pc.a);
    ListedBySet(s, Without(s.list, pc.a));
    DelistThreads(s, s', t);
    assert Frame(s, s', t, {}) && At(s', t) == pc';
    LocksKeep(s, s', t, {});
    PrivateKeep(s, s', t);
    AgentsKeep(s, s', t, {});
    RefsKeep(s, s');
  }

  lemma FreePcOk(s: System, s': System, t: Tid, u: Tid, a: AgentId)
    requires PcOk(s, u, At(s, u)) && u != t && Listed(s) && a !in s.list
    requires a in s.agents && s.agents[a].owner == Some(t)
    requires s'.agents == s.agents - {a} && s'.list == s.list
    ensures PcOk(s', u, At(s, u))
  {
  }

  /** kfree of a delisted entry. */
  lemma FreeKeeps(s: System, t: Tid, ok: bool)
    requires Inv(s) && t !in s.gone && At(s, t).Register? && At(s, t).g.GFree? && At(s, t).a in s.agents
    ensures var pc := At(s, t); Inv(RegisterStep(s, t, pc.g, pc.n, pc.a, 0, ok))
  {
    hide AgentsOk, Locks, RefsOk, Private, LocalOk, Life;
    var pc := At(s, t);
    var a := pc.a;
    var s' := RegisterStep(s, t, pc.g, pc.n, a, 0, ok);
    assert PcOk(s, t, pc);
    forall u: Tid ensures PcOk(s', u, At(s', u)) {
      if u != t { assert PcOk(s, u, At(s, u)); FreePcOk(s, s', t, u, a); }
    }
    FreeAgentsKeep(s, s', t, a);
    FreeRefKeeps(s, s', a);
    PrivateKeep(s, s', t);
  }

  lemma FreeAgentsKeep(s: System, s': System, t: Tid, a: AgentId)
    requires Locks(s) && AgentsOk(s) && a in s.agents
    requires s'.agents == s.agents - {a} && s'.threads == s.threads[t := Idle] && s'.gLock == s.gLock
    requires s'.gone == s.gone
    requires !HoldsGlobal(At(s, t)) && forall b :: !HoldsAgent(At(s, t), b)
    ensures Locks(s') && AgentsOk(s')
  {
    hide LocalOk, Life;
    assert s.gLock != Some(t);
    forall b | b in s'.agents ensures AgentOk(s', b) {
      assert AgentOk(s, b);
      assert s.agents[b].lock == Some(t) <==> HoldsAgent(At(s, t), b);
      assert PcOf(s', s.agents[b].lock) == PcOf(s, s.agents[b].lock);
      assert PcOf(s', s'.gLock) == PcOf(s, s.gLock);
    }
  }

  lemma RegisterKeeps(s: System, t: Tid, b: AgentId, ok: bool)
    requires Inv(s) && t !in s.gone && At(s, t).Register? && Unblocked(s, At(s, t)) && b !in s.agents
    ensures var pc := At(s, t); Inv(RegisterStep(s, t, pc.g, pc.n, pc.a, b, ok))
  {
    hide Inv;
    var g := At(s, t).g;
    if Recycling(g) { RecycleKeeps(s, t); }
    else if g.GScan? { ScanKeeps(s, t); }
    else if g.GInsert? { InsertKeeps(s, t, b, ok); }
    else if g.GDelist? { DelistKeeps(s, t, ok); }
    else if g.GFree? { FreeKeeps(s, t, ok); }
    else { RegisterMoveKeeps(s, t, ok); }
  }

  // ----- unload ---------------------------------------------------------

  lemma UnloadKeeps(s: System, t: Tid)
    requires Inv(s) && t !in s.gone && At(s, t).Unload? && Unblocked(s, At(s, t))
    ensures Inv(UnloadStep(s, t, At(s, t).x))
  {
    var pc := At(s, t);
    var s' := UnloadStep(s, t, pc.x);
    assert s.unloading;
    if pc.x.XLock? {
      MoveKeeps(s, s', t, Unload(XWalk));
      RefsKeep(s, s');
    } else if s.list == [] {
      UnloadDone(s, s', t);
    } else {
      UnloadFreeKeeps(s, s', t);
    }
  }

  lemma UnloadDone(s: System, s': System, t: Tid)
    requires Inv(s) && t !in s.gone && At(s, t) == Unload(XWalk) && s.unloading
    requires s' == Go(s.(gLock := None), t, Idle)
    ensures Inv(s')
  {
    hide AgentsOk, LocalOk, Life, Listed, Private;
    MoveKeeps(s, s', t, Idle);
    RefsKeep(s, s');
  }

  lemma UnloadFreeKeeps(s: System, s': System, t: Tid)
    requires Inv(s) && t !in s.gone && At(s, t) == Unload(XWalk) && s.unloading && s.list != []
    requires s.list[0] in s.agents && s' == FreeAgent(s, s.list[0]).(list := s.list[1..])
    ensures Inv(s')
  {
    hide AgentsOk, RefsOk, LocalOk, Life, Private;
    var a := s.list[0];
    FreeRefKeeps(s, s', a);
    UnloadFreeAgents(s, s', a);
    forall i | 0 <= i < |s'.list| ensures s'.list[i] in s'.agents {
      assert s'.list[i] == s.list[i + 1];
    }
    forall u: Tid ensures PcOk(s', u, At(s', u)) {
      assert At(s, u).Idle? || At(s, u).Unload?;
    }
  }

  lemma UnloadFreeAgents(s: System, s': System, a: AgentId)
    requires Locks(s) && AgentsOk(s) && Private(s) && a in s.agents && s'.agents == s.agents - {a}
    requires s'.threads == s.threads && s'.gLock == s.gLock && s'.gone == s.gone
    ensures Locks(s') && AgentsOk(s') && Private(s')
  {
    hide LocalOk, Life;
    assert forall u: Tid :: At(s', u) == At(s, u);
    forall b | b in s'.agents ensures AgentOk(s', b) {
      assert AgentOk(s, b);
    }
  }

  // ----- calls ----------------------------------------------------------

  /** Entries off the list belong to a registrant that is taking them down. */
  ghost predicate NoOrphans(s: System) {
    forall a :: a in s.agents && a !in s.list ==> exists t: Tid :: Builds(At(s, t), a)
  }

  lemma CallMailKeeps(s: System, t: Tid, a: AgentId, k: Kind, m: MailStage)
    requires Inv(s) && t !in s.gone && At(s, t) == Idle && !s.unloading && a in s.list
    requires forall u: Tid :: !Builds(At(s, u), a)
    requires m.RLock? || m.PLock? || (m.WLock? && 0 < |m.m| <= AGENTFS_MAX_MESSAGE)
    ensures Inv(Go(s, t, Mail(a, k, m)))
  {
    var s' := Go(s, t, Mail(a, k, m));
    hide AgentsOk, LocalOk, Life, RefsOk;
    assert Frame(s, s', t, {}) && At(s', t) == Mail(a, k, m);
    LocksKeep(s, s', t, {});
    ThreadsKeep(s, s', t, {});
    CallMailAgents(s, s', t, a);
    RefsKeep(s, s');
    forall u: Tid, v: Tid, b | Builds(At(s', u), b) ensures !(At(s', v).Mail? && At(s', v).a == b) {
      assert Builds(At(s, u), b);
    }
  }

  /** Starting a call touches no agent: the caller holds no lock yet. */
  lemma CallMailAgents(s: System, s': System, t: Tid, a: AgentId)
    requires Locks(s) && AgentsOk(s) && Frame(s, s', t, {}) && s'.gLock == s.gLock && s'.gone == s.gone
    requires At(s, t) == Idle && At(s', t).Mail? && forall b :: !HoldsAgent(At(s', t), b)
    ensures AgentsOk(s')
  {
    hide AgentsOk, LocalOk, Life, Locks;
    AgentsKeep(s, s', t, {});
  }

  lemma CallOtherKeeps(s: System, s': System, t: Tid, pc': Pc)
    requires Inv(s) && t !in s.gone && At(s, t) == Idle && !s.unloading
    requires pc' == Reap(SLock, 0, []) || (pc'.Register? && pc'.g.GLock?)
    requires s' == Go(s, t, pc')
    ensures Inv(s')
  {
    hide AgentsOk, LocalOk, Life, RefsOk, Locks, Private;
    assert PcOk(s', t, pc');
    MoveKeeps(s, s', t, pc');
    RefsKeep(s, s');
  }

  lemma GiveUpKeeps(s: System, t: Tid)
    requires Inv(s) && t !in s.gone && At(s, t).Mail? && At(s, t).m.RWait?
    ensures Inv(Go(s, t, Idle))
  {
    hide AgentsOk, LocalOk, Life, RefsOk, Locks, Private;
    var s' := Go(s, t, Idle);
    assert PcOk(s', t, Idle);
    MoveKeeps(s, s', t, Idle);
    RefsKeep(s, s');
  }

  lemma CallUnloadKeeps(s: System, t: Tid)
    requires Inv(s) && t !in s.gone && !s.unloading && forall u: Tid :: At(s, u) == Idle
    ensures Inv(Go(s.(unloading := true), t, Unload(XLock)))
  {
    hide LocalOk, Life, RefsOk;
    var s' := Go(s.(unloading := true), t, Unload(XLock));
    forall u: Tid ensures At(s', u) == if u == t then Unload(XLock) else Idle { assert At(s, u) == Idle; }
    assert !HoldsGlobal(At(s, GHolder(s))) && s.gLock != Some(GHolder(s));
    RefsKeep(s, s');
    forall a | a in s'.agents ensures AgentOk(s', a) {
      assert AgentOk(s, a);
      var u := if s.agents[a].lock.Some? then s.agents[a].lock.value else 0;
      assert !HoldsAgent(At(s, u), a) && s.agents[a].lock != Some(u);
    }
  }

  lemma ExitKeeps(s: System, t: Tid)
    requires Inv(s) && At(s, t) == Idle
    ensures Inv(s.(gone := s.gone + {t}))
  {
    hide LocalOk, RefsOk, PcOk;
    var s' := s.(gone := s.gone + {t});
    assert forall u: Tid :: At(s', u) == At(s, u);
    RefsKeep(s, s');
    forall a | a in s'.agents ensures AgentOk(s', a) { assert AgentOk(s, a); }
    forall u: Tid ensures PcOk(s', u, At(s', u)) { assert PcOk(s, u, At(s, u)); PcOkGone(s, s', u, At(s, u)); }
  }

  lemma PcOkGone(s: System, s': System, u: Tid, pc: Pc)
    requires PcOk(s, u, pc) && s'.list == s.list && s'.agents == s.agents
    ensures PcOk(s', u, pc)
  {
  }

  // ----- every step -----------------------------------------------------

  ghost predicate Good(s: System) { Inv(s) && NoOrphans(s) }

  /** An agent that can be opened is on the list. */
  lemma PublishedIsListed(s: System, a: AgentId)
    requires NoOrphans(s) && Published(s, a)
    ensures a in s.list
  {
  }

  lemma StepKeepsInv(s: System, t: Tid, c: Choice)
    requires Good(s) && Enabled(s, t, c)
    ensures Inv(Next(s, t, c))
  {
    hide Inv, NoOrphans;
    match c
    case CallWrite(a, k, m) =>
      PublishedIsListed(s, a);
      if 0 < |m| <= AGENTFS_MAX_MESSAGE { CallMailKeeps(s, t, a, k, WLock(m)); }
    case CallRead(a, k) => PublishedIsListed(s, a); CallMailKeeps(s, t, a, k, RLock);
    case CallPoll(a, k) => PublishedIsListed(s, a); CallMailKeeps(s, t, a, k, PLock);
    case CallReap => CallOtherKeeps(s, Next(s, t, c), t, Reap(SLock, 0, []));
    case CallRegister(n) => CallOtherKeeps(s, Next(s, t, c), t, Register(GLock, n, 0));
    case CallUnload => CallUnloadKeeps(s, t);
    case Exit => ExitKeeps(s, t);
    case GiveUp => GiveUpKeeps(s, t);
    case Proceed(newId, ok) =>
      match At(s, t)
      case Mail(_, _, _) => MailStepKeeps(s, t);
      case Reap(_, _, _) => ReapKeeps(s, t);
      case Register(_, _, _) => RegisterKeeps(s, t, newId, ok);
      case Unload(_) => UnloadKeeps(s, t);
  }

  /** Steps that keep the list and the set of entries, and whose thread builds nothing. */
  lemma OrphansFrame(s: System, s': System, t: Tid)
    requires NoOrphans(s) && s'.list == s.list && s'.agents.Keys == s.agents.Keys
    requires forall u: Tid :: u != t ==> At(s', u) == At(s, u)
    requires forall a :: Builds(At(s, t), a) ==> Builds(At(s', t), a) || a in s.list
    ensures NoOrphans(s')
  {
    forall a | a in s'.agents && a !in s'.list ensures exists u: Tid :: Builds(At(s', u), a) {
      var u: Tid :| Builds(At(s, u), a);
      assert Builds(At(s', u), a);
    }
  }
}
