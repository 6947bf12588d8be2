/** The inductive invariant of the agentfs protocol and its preservation by every step. */
module AgentfsInvariant {
  import opened Options
  import opened AgentfsModel

  function Sum(ms: seq<Message>): nat { if ms == [] then 0 else |ms[0]| + Sum(ms[1..]) }

  lemma {:induction false} SumAppend(ms: seq<Message>, m: Message)
    ensures Sum(ms + [m]) == Sum(ms) + |m|
  {
    if ms == [] {
      assert ms + [m] == [m] && [m][1..] == [];
    } else {
      SumAppend(ms[1..], m);
      assert (ms + [m])[1..] == ms[1..] + [m];
    }
  }

  function Gist(rs: seq<Removal>): seq<Message> {
    if rs == [] then [] else Gist(rs[..|rs| - 1]) + [rs[|rs| - 1].message]
  }

  lemma GistAppend(rs: seq<Removal>, r: Removal)
    ensures Gist(rs + [r]) == Gist(rs) + [r.message]
  {
    assert (rs + [r])[..|rs|] == rs;
  }

  // ----- one mailbox, seen by the holder of its lock --------------------

  /** Accepted messages, in order, are those removed followed by those queued. */
  predicate Fifo(mb: Mailbox) { mb.accepted == Gist(mb.removed) + mb.messages }

  predicate Bounded(mb: Mailbox) {
    |mb.messages| <= AGENTFS_MAX_QUEUE_MSGS && Sum(mb.messages) <= AGENTFS_MAX_QUEUE_BYTES
  }

  /** How far the counters trail the list while the lock holder stands at `pc`. */
  predicate Counts(mb: Mailbox, k: Kind, pc: Pc) {
    var n, b := |mb.messages|, Sum(mb.messages);
    match pc
    case Mail(_, j, m) =>
      if j != k then mb.queuedBytes == b && mb.queuedMessages == n
      else (match m
            case WBytes(d) => mb.queuedBytes == b - |d| && mb.queuedMessages == n - 1
            case WCount(d) => mb.queuedBytes == b && mb.queuedMessages == n - 1
            case RBytes(d) => mb.queuedBytes == b + |d| && mb.queuedMessages == n + 1
            case RCount(d) => mb.queuedBytes == b && mb.queuedMessages == n + 1
            case _ => mb.queuedBytes == b && mb.queuedMessages == n)
    case Reap(r, _, _) => r == SDrain(k) || (mb.queuedBytes == b && mb.queuedMessages == n)
    case Register(g, _, _) => g == GDrain(k) || (mb.queuedBytes == b && mb.queuedMessages == n)
    case _ => mb.queuedBytes == b && mb.queuedMessages == n
  }

  predicate BoxOk(mb: Mailbox, k: Kind, pc: Pc) { Fifo(mb) && Bounded(mb) && Counts(mb, k, pc) }

  predicate BothEmpty(x: Agent) { x.inbox.messages == [] && x.outbox.messages == [] }

  /** A dead agent's queues are empty, but for what the lock holder is still doing. */
  predicate Emptied(x: Agent, pc: Pc) {
    match pc
    case Mail(_, _, m) => if m.WBytes? || m.WCount? then !x.dead else x.dead ==> BothEmpty(x)
    case Reap(r, _, _) =>
      (match r
       case SDrain(k) => x.dead && (k == Outbox ==> x.inbox.messages == [])
       case SUnlock => x.dead && BothEmpty(x)
       case _ => x.dead ==> BothEmpty(x))
    case Register(g, _, _) =>
      (match g
       case GDrain(k) => k == Outbox ==> x.inbox.messages == []
       case GPut => BothEmpty(x)
       case GOwn => BothEmpty(x)
       case GRevive => BothEmpty(x)
       case GRelease => BothEmpty(x)
       case _ => x.dead ==> BothEmpty(x))
    case _ => x.dead ==> BothEmpty(x)
  }

  /** `dead` and `owner` agree, but for the agent the global-lock holder `t` is working on. */
  predicate Life(x: Agent, a: AgentId, pc: Pc, t: Tid, gone: set<Tid>) {
    match pc
    case Reap(r, b, _) =>
      if a != b then x.dead == x.owner.None?
      else (match r
            case SAcquire => !x.dead && !OwnerAlive(x, gone)
            case SDead => !x.dead && !OwnerAlive(x, gone)
            case SDrain(_) => x.dead && !OwnerAlive(x, gone)
            case SUnlock => x.dead && !OwnerAlive(x, gone)
            case SPut => x.dead && !OwnerAlive(x, gone)
            case _ => x.dead == x.owner.None?)
    case Register(g, _, b) =>
      if a != b then x.dead == x.owner.None?
      else (match g
            case GDrain(_) => !OwnerAlive(x, gone)
            case GPut => !OwnerAlive(x, gone)
            case GOwn => x.owner.None?
            case GRevive => x.owner == Some(t)
            case _ => x.dead == x.owner.None?)
    case _ => x.dead == x.owner.None?
  }

  function PcOf(s: System, holder: Option<Tid>): Pc {
    match holder
    case None => Idle
    case Some(t) => At(s, t)
  }

  function GHolder(s: System): Tid { if s.gLock.Some? then s.gLock.value else 0 }

  /** What the holder of an agent's lock, standing at `pc`, knows of its mailboxes. */
  predicate LocalOk(x: Agent, pc: Pc) {
    BoxOk(x.inbox, Inbox, pc) && BoxOk(x.outbox, Outbox, pc) && Emptied(x, pc)
  }

  predicate AgentOk(s: System, a: AgentId)
    requires a in s.agents
  {
    && LocalOk(s.agents[a], PcOf(s, s.agents[a].lock))
    && Life(s.agents[a], a, PcOf(s, s.gLock), GHolder(s), s.gone)
  }

  ghost predicate AgentsOk(s: System) { forall a :: a in s.agents ==> AgentOk(s, a) }

  // ----- locks and references -------------------------------------------

  /** Each lock is owned by exactly the thread whose position says so. */
  ghost predicate Locks(s: System) {
    && (forall t: Tid :: s.gLock == Some(t) <==> HoldsGlobal(At(s, t)))
    && (forall t: Tid, a: AgentId :: a in s.agents ==> (s.agents[a].lock == Some(t) <==> HoldsAgent(At(s, t), a)))
  }

  ghost predicate NoDup(list: seq<AgentId>) {
    forall i, j :: 0 <= i < j < |list| ==> list[i] != list[j]
  }

  ghost predicate Listed(s: System) {
    && (forall i :: 0 <= i < |s.list| ==> s.list[i] in s.agents)
    && NoDup(s.list)
    && (forall i, j :: 0 <= i < j < |s.list| ==> s.agents[s.list[i]].name != s.agents[s.list[j]].name)
  }

  ghost predicate Unnamed(s: System, n: string, upto: nat) {
    upto <= |s.list| && forall j :: 0 <= j < upto && s.list[j] in s.agents ==> s.agents[s.list[j]].name != n
  }

  /** What a position says about the list and the agent it works on. */
  ghost predicate PcOk(s: System, t: Tid, pc: Pc) {
    match pc
    case Idle => true
    case Mail(a, _, m) =>
      && a in s.list
      && (m.WLock? || m.WCheck? || m.WBytes? || m.WCount? ==> 0 < |m.m| <= AGENTFS_MAX_MESSAGE)
    case Reap(r, a, rest) =>
      (r.SLock? || forall b :: b in rest ==> b in s.list) && (r.SLock? || r.SWalk? || a in s.list)
    case Register(g, n, a) =>
      (match g
       case GLock => true
       case GScan(i) => Unnamed(s, n, i)
       case GInsert => Unnamed(s, n, |s.list|)
       case GUnlock => true
       case GUnlockDelisted => a in s.agents && a !in s.list && s.agents[a].owner == Some(t) && !s.agents[a].dead
       case GFree => a in s.agents && a !in s.list && s.agents[a].owner == Some(t) && !s.agents[a].dead
       case GPublish => a in s.list && a in s.agents && s.agents[a].owner == Some(t) && !s.agents[a].dead
       case GBuild => a in s.list && a in s.agents && s.agents[a].owner == Some(t) && !s.agents[a].dead
       case GRelock => a in s.list && a in s.agents && s.agents[a].owner == Some(t) && !s.agents[a].dead
       case GDelist => a in s.list && a in s.agents && s.agents[a].owner == Some(t) && !s.agents[a].dead
       case _ => a in s.list && a in s.agents && s.agents[a].name == n)
    case Unload(_) => true
  }

  ghost predicate Threads(s: System) {
    && (forall t :: PcOk(s, t, At(s, t)))
    && (forall t :: t in s.gone ==> At(s, t) == Idle)
    && (s.unloading ==> forall t :: At(s, t).Idle? || At(s, t).Unload?)
    && (!s.unloading ==> forall t :: !At(s, t).Unload?)
  }

  /** Nobody uses the mailboxes of an agent whose directory is not there yet. */
  ghost predicate Private(s: System) {
    forall t, u, a :: Builds(At(s, t), a) ==> !(At(s, u).Mail? && At(s, u).a == a)
  }

  // ----- task references ------------------------------------------------

  function Owned(agents: map<AgentId, Agent>, u: Tid): set<AgentId> {
    set a | a in agents && agents[a].owner == Some(u)
  }

  ghost predicate RefsOk(s: System) {
    forall u :: Refs(s, u) == |Owned(s.agents, u)|
  }

  ghost predicate Inv(s: System) {
    Locks(s) && Listed(s) && Threads(s) && Private(s) && AgentsOk(s) && RefsOk(s)
  }

  lemma InitialInv()
    ensures Inv(INITIAL)
  {
    assert forall u :: Owned(INITIAL.agents, u) == {};
  }

  // ----- what one step may change ---------------------------------------

  /** Thread t moves, and writes no agent outside `touched`. */
  ghost predicate Frame(s: System, s': System, t: Tid, touched: set<AgentId>) {
    && (forall u: Tid :: u != t ==> At(s', u) == At(s, u))
    && s'.agents.Keys == s.agents.Keys
    && (forall b :: b in s.agents && b !in touched ==> s'.agents[b] == s.agents[b])
    && (forall b :: b in s.agents ==> s'.agents[b].name == s.agents[b].name)
  }

  /** The global lock changes hands only as the positions of t say. */
  predicate GlobalMoves(s: System, s': System, t: Tid) {
    if HoldsGlobal(At(s, t)) == HoldsGlobal(At(s', t)) then s'.gLock == s.gLock
    else if HoldsGlobal(At(s', t)) then s.gLock.None? && s'.gLock == Some(t)
    else s'.gLock.None?
  }

  predicate AgentLockMoves(s: System, s': System, t: Tid, a: AgentId)
    requires a in s.agents && a in s'.agents
  {
    if HoldsAgent(At(s, t), a) == HoldsAgent(At(s', t), a) then s'.agents[a].lock == s.agents[a].lock
    else if HoldsAgent(At(s', t), a) then s.agents[a].lock.None? && s'.agents[a].lock == Some(t)
    else s'.agents[a].lock.None?
  }

  lemma LocksKeep(s: System, s': System, t: Tid, touched: set<AgentId>)
    requires Locks(s) && Frame(s, s', t, touched) && GlobalMoves(s, s', t)
    requires forall a :: a in s.agents ==> AgentLockMoves(s, s', t, a)
    ensures Locks(s')
  {
    forall u: Tid, a: AgentId | a in s'.agents ensures s'.agents[a].lock == Some(u) <==> HoldsAgent(At(s', u), a) {
      assert AgentLockMoves(s, s', t, a);
      assert s.agents[a].lock == Some(u) <==> HoldsAgent(At(s, u), a);
      assert s.agents[a].lock == Some(t) <==> HoldsAgent(At(s, t), a);
    }
  }

  /** Threads other than t keep their footing when t only moves and writes agents they do not build. */
  lemma ThreadsKeep(s: System, s': System, t: Tid, touched: set<AgentId>)
    requires Threads(s) && Frame(s, s', t, touched)
    requires s'.list == s.list && s'.gone == s.gone && s'.unloading == s.unloading && t !in s.gone
    requires forall u: Tid, a :: u != t && a in touched && Builds(At(s, u), a) && a in s.agents ==>
      s'.agents[a].owner == s.agents[a].owner && s'.agents[a].dead == s.agents[a].dead
    requires PcOk(s', t, At(s', t))
    requires if s.unloading then At(s', t).Idle? || At(s', t).Unload? else !At(s', t).Unload?
    ensures Threads(s')
  {
    forall u: Tid ensures PcOk(s', u, At(s', u)) {
      assert PcOk(s, u, At(s, u));
      if u != t && At(s, u).Register? { assert Builds(At(s, u), At(s, u).a) ==> At(s, u).a in s.agents; }
    }
  }

  lemma PrivateKeep(s: System, s': System, t: Tid)
    requires Private(s) && forall u: Tid :: u != t ==> At(s', u) == At(s, u)
    requires forall a :: Builds(At(s', t), a) ==> Builds(At(s, t), a)
    requires At(s', t).Mail? ==> At(s, t).Mail? && At(s, t).a == At(s', t).a
    ensures Private(s')
  {
    forall u: Tid, v: Tid, a | Builds(At(s', u), a) ensures !(At(s', v).Mail? && At(s', v).a == a) {
      assert Builds(At(s, u), a);
    }
  }

  /** The agent a position has singled out under the global lock. */
  predicate Targets(pc: Pc, a: AgentId) {
    match pc
    case Reap(r, b, _) => a == b && !r.SLock? && !r.SWalk?
    case Register(g, _, b) => a == b && Recycling(g)
    case _ => false
  }

  /** A position that concerns no agent but a. */
  predicate About(pc: Pc, a: AgentId) {
    match pc
    case Mail(b, _, _) => b == a
    case Reap(r, b, _) => r.SLock? || r.SWalk? || b == a
    case Register(g, _, b) => !Recycling(g) || b == a
    case _ => true
  }

  lemma LifeDefault(x: Agent, a: AgentId, pc: Pc, t: Tid, gone: set<Tid>)
    requires !Targets(pc, a)
    ensures Life(x, a, pc, t, gone) <==> x.dead == x.owner.None?
  {
  }

  /** Life under the global lock, for an agent t has not singled out. */
  lemma LifeElse(s: System, s': System, t: Tid, b: AgentId)
    requires b in s.agents && GlobalMoves(s, s', t) && s'.gone == s.gone
    requires forall u: Tid :: u != t ==> At(s', u) == At(s, u)
    requires s.gLock == Some(t) <==> HoldsGlobal(At(s, t))
    requires !Targets(At(s, t), b) && !Targets(At(s', t), b)
    requires Life(s.agents[b], b, PcOf(s, s.gLock), GHolder(s), s.gone)
    ensures Life(s.agents[b], b, PcOf(s', s'.gLock), GHolder(s'), s'.gone)
  {
    var x := s.agents[b];
    if s'.gLock != s.gLock || s.gLock == Some(t) {
      LifeDefault(x, b, PcOf(s, s.gLock), GHolder(s), s.gone);
      LifeDefault(x, b, PcOf(s', s'.gLock), GHolder(s'), s.gone);
    }
  }

  lemma AgentsKeep(s: System, s': System, t: Tid, touched: set<AgentId>)
    requires AgentsOk(s) && Locks(s) && Frame(s, s', t, touched) && GlobalMoves(s, s', t) && s'.gone == s.gone
    requires forall b :: b in s.agents && b !in touched ==>
      !HoldsAgent(At(s, t), b) && !Targets(At(s, t), b) && !Targets(At(s', t), b)
    requires forall b :: b in s.agents && b in touched ==> AgentOk(s', b)
    ensures AgentsOk(s')
  {
    forall b | b in s'.agents ensures AgentOk(s', b) {
      if b !in touched {
        assert AgentOk(s, b);
        assert s.agents[b].lock == Some(t) <==> HoldsAgent(At(s, t), b);
        assert s.gLock == Some(t) <==> HoldsGlobal(At(s, t));
        LifeElse(s, s', t, b);
        assert PcOf(s', s.agents[b].lock) == PcOf(s, s.agents[b].lock);
      }
    }
  }

  lemma RefsKeep(s: System, s': System)
    requires RefsOk(s) && s'.refs == s.refs && s'.agents.Keys == s.agents.Keys
    requires forall b :: b in s.agents ==> s'.agents[b].owner == s.agents[b].owner
    ensures RefsOk(s')
  {
    forall u: Tid ensures Refs(s', u) == |Owned(s'.agents, u)| {
      assert Owned(s'.agents, u) == Owned(s.agents, u);
    }
  }

  /** Thread t, standing at a point about agent a, writes that agent and moves to pc'. */
  lemma WriteKeeps(s: System, s': System, t: Tid, a: AgentId, pc': Pc)
    requires Locks(s) && Listed(s) && Threads(s) && Private(s) && AgentsOk(s)
    requires t !in s.gone && a in s.agents && a in s'.agents
    requires s'.list == s.list && s'.gLock == s.gLock && s'.gone == s.gone && s'.unloading == s.unloading
    requires s'.agents == s.agents[a := s'.agents[a]] && s'.threads == s.threads[t := pc']
    requires s'.agents[a].name == s.agents[a].name
    requires About(At(s, t), a) && About(pc', a) && HoldsGlobal(pc') == HoldsGlobal(At(s, t)) && !pc'.Unload?
    requires !s.unloading
    requires At(s', t) == pc' && AgentLockMoves(s, s', t, a)
    requires var x, x' := s.agents[a], s'.agents[a];
      (x'.owner == x.owner && x'.dead == x.dead) || forall u: Tid :: u != t ==> !Builds(At(s, u), a)
    requires forall b :: !Builds(pc', b)
    requires pc'.Mail? ==> At(s, t).Mail? && At(s, t).a == pc'.a
    requires PcOk(s', t, pc') && AgentOk(s', a)
    ensures Locks(s') && Listed(s') && Threads(s') && Private(s') && AgentsOk(s')
  {
    hide *;
    WriteFrame(s, s', t, a, pc');
    WriteKeepsThreads(s, s', t, a);
    WriteKeepsAgents(s, s', t, a);
  }

  lemma WriteKeepsAgents(s: System, s': System, t: Tid, a: AgentId)
    requires Locks(s) && AgentsOk(s) && a in s.agents && Frame(s, s', t, {a}) && s'.gLock == s.gLock
    requires s'.gone == s.gone
    requires About(At(s, t), a) && About(At(s', t), a) && HoldsGlobal(At(s', t)) == HoldsGlobal(At(s, t))
    requires AgentOk(s', a)
    ensures AgentsOk(s')
  {
    hide Locks, AgentsOk, AgentOk;
    AgentsKeep(s, s', t, {a});
  }

  lemma WriteFrame(s: System, s': System, t: Tid, a: AgentId, pc': Pc)
    requires a in s.agents && a in s'.agents && s'.agents[a].name == s.agents[a].name
    requires s'.agents == s.agents[a := s'.agents[a]] && s'.threads == s.threads[t := pc']
    ensures Frame(s, s', t, {a}) && At(s', t) == pc'
  {
  }

  lemma WriteKeepsThreads(s: System, s': System, t: Tid, a: AgentId)
    requires Locks(s) && Listed(s) && Threads(s) && Private(s) && t !in s.gone && a in s.agents
    requires Frame(s, s', t, {a}) && s'.list == s.list && s'.gLock == s.gLock && s'.gone == s.gone
    requires s'.unloading == s.unloading
    requires About(At(s, t), a) && About(At(s', t), a) && HoldsGlobal(At(s', t)) == HoldsGlobal(At(s, t))
    requires !At(s', t).Unload? && !s.unloading && AgentLockMoves(s, s', t, a)
    requires var x, x' := s.agents[a], s'.agents[a];
      (x'.owner == x.owner && x'.dead == x.dead) || forall u: Tid :: u != t ==> !Builds(At(s, u), a)
    requires forall b :: !Builds(At(s', t), b)
    requires At(s', t).Mail? ==> At(s, t).Mail? && At(s, t).a == At(s', t).a
    requires PcOk(s', t, At(s', t))
    ensures Locks(s') && Listed(s') && Threads(s') && Private(s')
  {
    hide PcOk, Listed, Private, Threads, Locks;
    LocksKeep(s, s', t, {a});
    ThreadsKeep(s, s', t, {a});
    PrivateKeep(s, s', t);
    ListedKeep(s, s', t, {a});
  }

  lemma ListedKeep(s: System, s': System, t: Tid, touched: set<AgentId>)
    requires Listed(s) && Frame(s, s', t, touched) && s'.list == s.list
    ensures Listed(s')
  {
  }

  // ----- mailbox operations ---------------------------------------------

  function HolderPc(pc: Pc, a: AgentId): Pc { if HoldsAgent(pc, a) then pc else Idle }

  lemma AppendBox(mb: Mailbox, m: Message)
    requires Fifo(mb) && Bounded(mb) && !Full(mb, |m|)
    requires mb.queuedBytes == Sum(mb.messages) && mb.queuedMessages == |mb.messages|
    ensures Fifo(Appended(mb, m)) && Bounded(Appended(mb, m)) && Sum(Appended(mb, m).messages) == Sum(mb.messages) + |m|
  {
    SumAppend(mb.messages, m);
  }

  lemma UnlinkBox(mb: Mailbox, r: Removal)
    requires Fifo(mb) && Bounded(mb) && mb.messages != [] && r.message == mb.messages[0]
    ensures Fifo(Unlinked(mb, r)) && Bounded(Unlinked(mb, r))
    ensures Sum(mb.messages) == |r.message| + Sum(Unlinked(mb, r).messages)
  {
    GistAppend(mb.removed, r);
    assert mb.messages == [mb.messages[0]] + mb.messages[1..];
  }

  lemma WriteLocal(x: Agent, t: Tid, a: AgentId, k: Kind, m: MailStage)
    requires LocalOk(x, HolderPc(Mail(a, k, m), a)) && (m.WLock? || m.WCheck? || m.WBytes? || m.WCount?)
    ensures var (x', pc') := MailEffect(x, t, a, k, m); LocalOk(x', HolderPc(pc', a))
  {
    var mb := Box(x, k);
    if m.WCheck? && !x.dead && !Full(mb, |m.m|) { AppendBox(mb, m.m); }
  }

  lemma ReadLocal(x: Agent, t: Tid, a: AgentId, k: Kind, m: MailStage)
    requires LocalOk(x, HolderPc(Mail(a, k, m), a)) && (m.RLock? || m.RCheck? || m.RBytes? || m.RCount? || m.RRelease?)
    ensures var (x', pc') := MailEffect(x, t, a, k, m); LocalOk(x', HolderPc(pc', a))
  {
    hide Gist, Sum;
    var mb := Box(x, k);
    if m.RCheck? && mb.messages != [] { UnlinkBox(mb, ReadBy(t, mb.messages[0])); }
  }

  lemma MailLocal(x: Agent, t: Tid, a: AgentId, k: Kind, m: MailStage)
    requires LocalOk(x, HolderPc(Mail(a, k, m), a))
    ensures var (x', pc') := MailEffect(x, t, a, k, m);
      LocalOk(x', HolderPc(pc', a)) && x'.dead == x.dead && x'.owner == x.owner && x'.name == x.name
  {
    if m.WLock? || m.WCheck? || m.WBytes? || m.WCount? {
      WriteLocal(x, t, a, k, m);
    } else if m.RLock? || m.RCheck? || m.RBytes? || m.RCount? || m.RRelease? {
      ReadLocal(x, t, a, k, m);
    }
  }

  /** Whether an agent's lock moves as the positions of t say. */
  predicate LockShape(x: Agent, x': Agent, t: Tid, before: bool, after: bool) {
    if before == after then x'.lock == x.lock
    else if after then x.lock.None? && x'.lock == Some(t)
    else x'.lock.None?
  }

  lemma MailShape(x: Agent, t: Tid, a: AgentId, k: Kind, m: MailStage)
    requires m.WLock? || m.RLock? || m.PLock? ==> x.lock.None?
    ensures var (x', pc') := MailEffect(x, t, a, k, m);
      && x'.name == x.name && x'.dead == x.dead && x'.owner == x.owner
      && (pc'.Idle? || (pc'.Mail? && pc'.a == a))
      && LockShape(x, x', t, HoldsAgent(Mail(a, k, m), a), HoldsAgent(pc', a))
  {
  }

  lemma MailMessage(x: Agent, t: Tid, a: AgentId, k: Kind, m: MailStage, s: System, s': System)
    requires PcOk(s, t, Mail(a, k, m)) && s'.list == s.list
    ensures var (_, pc') := MailEffect(x, t, a, k, m); PcOk(s', t, pc')
  {
  }

  /** A thread in a mailbox operation stands on a listed agent, with the lock or without it. */
  lemma MailPosition(s: System, t: Tid)
    requires Locks(s) && Listed(s) && Threads(s) && Private(s) && At(s, t).Mail?
    ensures At(s, t).a in s.agents && PcOk(s, t, At(s, t)) && !s.unloading
    ensures s.agents[At(s, t).a].lock == Some(t) <==> HoldsAgent(At(s, t), At(s, t).a)
    ensures s.gLock != Some(t)
    ensures forall u: Tid :: !Builds(At(s, u), At(s, t).a)
  {
    assert PcOk(s, t, At(s, t));
    assert s.gLock == Some(t) <==> HoldsGlobal(At(s, t));
  }

  /** When t holds or has just released the lock of a, its holder's position is t's. */
  lemma WriterAgentOk(s: System, s': System, t: Tid, a: AgentId, x': Agent, pc': Pc)
    requires a in s.agents && s'.agents == s.agents[a := x'] && s'.threads == s.threads[t := pc'] && s'.gLock == s.gLock
    requires s'.gone == s.gone
    requires s.gLock != Some(t) && AgentOk(s, a) && x'.dead == s.agents[a].dead && x'.owner == s.agents[a].owner
    requires x'.lock == (if HoldsAgent(pc', a) then Some(t) else None)
    requires LocalOk(x', HolderPc(pc', a))
    ensures AgentOk(s', a)
  {
    assert PcOf(s', s'.gLock) == PcOf(s, s.gLock);
  }

  /** A mailbox step, given only its shape. */
  lemma MailWriteKeeps(s: System, s': System, t: Tid, a: AgentId, x': Agent, pc': Pc)
    requires Inv(s) && t !in s.gone && At(s, t).Mail? && At(s, t).a == a && a in s.agents
    requires s' == Write(s, t, a, x', pc')
    requires x'.name == s.agents[a].name && x'.dead == s.agents[a].dead && x'.owner == s.agents[a].owner
    requires pc'.Idle? || (pc'.Mail? && pc'.a == a)
    requires LockShape(s.agents[a], x', t, HoldsAgent(At(s, t), a), HoldsAgent(pc', a))
    requires PcOk(s', t, pc')
    requires if At(s, t).m.RWait? then x' == s.agents[a] && !HoldsAgent(pc', a)
      else LocalOk(x', HolderPc(pc', a)) && (HoldsAgent(At(s, t), a) || HoldsAgent(pc', a))
    ensures Inv(s')
  {
    hide LocalOk, Listed, Locks, Private, PcOk, RefsOk;
    MailPosition(s, t);
    assert AgentOk(s, a);
    if At(s, t).m.RWait? {
      WaiterAgentOk(s, s', t, a, pc');
    } else {
      WriterAgentOk(s, s', t, a, x', pc');
    }
    RefsKeep(s, s');
    WriteKeeps(s, s', t, a, pc');
  }

  lemma MailHolderOk(s: System, t: Tid)
    requires Locks(s) && AgentsOk(s) && At(s, t).Mail? && At(s, t).a in s.agents && Unblocked(s, At(s, t))
    requires !At(s, t).m.RWait?
    ensures LocalOk(s.agents[At(s, t).a], HolderPc(At(s, t), At(s, t).a))
  {
    assert AgentOk(s, At(s, t).a);
    assert s.agents[At(s, t).a].lock == Some(t) <==> HoldsAgent(At(s, t), At(s, t).a);
  }

  lemma MailStepKeeps(s: System, t: Tid)
    requires Inv(s) && t !in s.gone && At(s, t).Mail? && Unblocked(s, At(s, t))
    ensures var pc := At(s, t); Inv(MailStep(s, t, pc.a, pc.k, pc.m))
  {
    hide LocalOk, Listed, Locks, Private, PcOk, RefsOk, AgentsOk, Threads, Life;
    var pc := At(s, t);
    var a, k, m := pc.a, pc.k, pc.m;
    var s', x := MailStep(s, t, a, k, m), s.agents[a];
    var (x', pc') := MailEffect(x, t, a, k, m);
    MailPosition(s, t);
    MailShape(x, t, a, k, m);
    MailMessage(x, t, a, k, m, s, s');
    if !m.RWait? {
      MailHolderOk(s, t);
      MailLocal(x, t, a, k, m);
    }
    MailWriteKeeps(s, s', t, a, x', pc');
  }

  lemma WaiterAgentOk(s: System, s': System, t: Tid, a: AgentId, pc': Pc)
    requires a in s.agents && s'.agents == s.agents && s'.threads == s.threads[t := pc'] && s'.gLock == s.gLock
    requires s'.gone == s.gone
    requires s.gLock != Some(t) && s.agents[a].lock != Some(t) && AgentOk(s, a)
    ensures AgentOk(s', a)
  {
    assert PcOf(s', s'.gLock) == PcOf(s, s.gLock);
    assert PcOf(s', s.agents[a].lock) == PcOf(s, s.agents[a].lock);
  }

  // ----- steps under the global lock that write one agent ---------------

  /** Whoever is still building an agent owns it and is running. */
  lemma BuilderOwns(s: System, u: Tid, a: AgentId)
    requires Threads(s) && Builds(At(s, u), a)
    ensures a in s.agents && s.agents[a].owner == Some(u) && u !in s.gone
  {
    assert PcOk(s, u, At(s, u));
  }

  /** Whether thread t has, gets or gives up the lock of a; otherwise t changes nothing the lock guards. */
  predicate LocalMove(x: Agent, x': Agent, t: Tid, a: AgentId, pc: Pc, pc': Pc) {
    && LockShape(x, x', t, HoldsAgent(pc, a), HoldsAgent(pc', a))
    && if HoldsAgent(pc, a) || HoldsAgent(pc', a) then LocalOk(x', HolderPc(pc', a))
       else x'.dead == x.dead && x'.inbox == x.inbox && x'.outbox == x.outbox
  }

  lemma SameBoxes(x: Agent, x': Agent, pc: Pc)
    requires LocalOk(x, pc) && x'.dead == x.dead && x'.inbox == x.inbox && x'.outbox == x.outbox
    ensures LocalOk(x', pc)
  {
  }

  lemma GlobalAgentOk(s: System, s': System, t: Tid, a: AgentId, x': Agent, pc': Pc)
    requires Locks(s) && a in s.agents && AgentOk(s, a) && HoldsGlobal(At(s, t))
    requires s'.agents == s.agents[a := x'] && s'.threads == s.threads[t := pc'] && s'.gLock == s.gLock
    requires s'.gone == s.gone
    requires LocalMove(s.agents[a], x', t, a, At(s, t), pc') && Life(x', a, pc', t, s.gone)
    ensures AgentOk(s', a)
  {
    var x := s.agents[a];
    assert s.gLock == Some(t) <==> HoldsGlobal(At(s, t));
    assert x.lock == Some(t) <==> HoldsAgent(At(s, t), a);
    assert PcOf(s', s'.gLock) == pc' && GHolder(s') == t;
    if !HoldsAgent(At(s, t), a) && !HoldsAgent(pc', a) {
      assert PcOf(s', x'.lock) == PcOf(s, x.lock);
      SameBoxes(x, x', PcOf(s, x.lock));
    } else {
      assert PcOf(s', x'.lock) == HolderPc(pc', a);
    }
  }

  lemma GlobalWriteKeeps(s: System, s': System, t: Tid, a: AgentId, x': Agent, pc': Pc)
    requires Locks(s) && Listed(s) && Threads(s) && Private(s) && AgentsOk(s) && t !in s.gone && a in s.agents
    requires s'.agents == s.agents[a := x'] && s'.threads == s.threads[t := pc']
    requires s'.list == s.list && s'.gLock == s.gLock && s'.gone == s.gone && s'.unloading == s.unloading
    requires HoldsGlobal(At(s, t)) && HoldsGlobal(pc') && About(At(s, t), a) && About(pc', a)
    requires !At(s, t).Unload? && !pc'.Unload? && !pc'.Mail?
    requires x'.name == s.agents[a].name && LocalMove(s.agents[a], x', t, a, At(s, t), pc')
    requires Life(x', a, pc', t, s.gone)
    requires (x'.owner == s.agents[a].owner && x'.dead == s.agents[a].dead)
      || forall u: Tid :: u != t ==> !Builds(At(s, u), a)
    requires forall b :: !Builds(pc', b)
    requires PcOk(s', t, pc')
    ensures Locks(s') && Listed(s') && Threads(s') && Private(s') && AgentsOk(s')
  {
    assert AgentOk(s, a);
    GlobalAgentOk(s, s', t, a, x', pc');
    WriteKeeps(s, s', t, a, pc');
  }

  // ----- task references ------------------------------------------------

  /** An owner pointer is cleared, and its reference dropped. */
  lemma DropRefKeeps(s: System, s': System, a: AgentId)
    requires RefsOk(s) && a in s.agents && a in s'.agents && s'.agents[a].owner == None
    requires s'.agents == s.agents[a := s'.agents[a]] && s'.refs == PutOwner(s, s.agents[a]).refs
    ensures RefsOk(s')
  {
    forall u: Tid ensures Refs(s', u) == |Owned(s'.agents, u)| {
      if s.agents[a].owner == Some(u) {
        assert Owned(s'.agents, u) == Owned(s.agents, u) - {a};
      } else {
        assert Owned(s'.agents, u) == Owned(s.agents, u);
      }
    }
  }

  /** An owner pointer is set, and a reference taken. */
  lemma TakeRefKeeps(s: System, s': System, a: AgentId, t: Tid)
    requires RefsOk(s) && (a in s.agents ==> s.agents[a].owner.None?) && a in s'.agents && s'.agents[a].owner == Some(t)
    requires s'.agents == s.agents[a := s'.agents[a]] && s'.refs == AddRef(s, t, 1).refs
    ensures RefsOk(s')
  {
    hide Owned;
    forall u: Tid ensures Refs(s', u) == |Owned(s'.agents, u)| {
      OwnedTaken(s.agents, a, s'.agents[a], t, u);
    }
  }

  lemma OwnedTaken(m: map<AgentId, Agent>, a: AgentId, x: Agent, t: Tid, u: Tid)
    requires (a in m ==> m[a].owner.None?) && x.owner == Some(t)
    ensures Owned(m[a := x], u) == (if u == t then Owned(m, u) + {a} else Owned(m, u)) && a !in Owned(m, u)
  {
  }

  lemma FreeRefKeeps(s: System, s': System, a: AgentId)
    requires RefsOk(s) && a in s.agents
    requires s'.agents == s.agents - {a} && s'.refs == PutOwner(s, s.agents[a]).refs
    ensures RefsOk(s')
  {
    forall u: Tid ensures Refs(s', u) == |Owned(s'.agents, u)| {
      if s.agents[a].owner == Some(u) {
        assert Owned(s'.agents, u) == Owned(s.agents, u) - {a};
      } else {
        assert Owned(s'.agents, u) == Owned(s.agents, u);
      }
    }
  }

  // ----- the reaper -----------------------------------------------------

  lemma DrainLocal(x: Agent, k: Kind)
    requires Fifo(Box(x, k)) && Bounded(Box(x, k))
    ensures Fifo(Box(DrainTurn(x, k), k)) && Bounded(Box(DrainTurn(x, k), k))
  {
    var mb := Box(x, k);
    if mb.messages != [] { UnlinkBox(mb, Drained(mb.messages[0])); }
  }

  lemma ReapLocal(x: Agent, t: Tid, r: ReapStage, a: AgentId, rest: seq<AgentId>)
    requires !r.SLock? && !r.SWalk? && !r.SPut? && LocalOk(x, HolderPc(Reap(r, a, rest), a))
    ensures var (x', pc') := ReapEffect(x, t, r, a, rest); LocalOk(x', HolderPc(pc', a))
  {
    hide Gist, Fifo, Bounded;
    if r.SDrain? { DrainLocal(x, r.k); }
  }

  lemma ReapShape(x: Agent, t: Tid, r: ReapStage, a: AgentId, rest: seq<AgentId>, gone: set<Tid>)
    requires !r.SLock? && !r.SWalk? && (r.SAcquire? ==> x.lock.None?)
    requires Life(x, a, Reap(r, a, rest), t, gone)
    ensures var (x', pc') := ReapEffect(x, t, r, a, rest);
      && x'.name == x.name && pc'.Reap? && HoldsGlobal(pc') && About(pc', a) && pc'.rest == rest
      && (pc'.r.SWalk? || pc'.a == a) && !pc'.r.SLock?
      && LockShape(x, x', t, HoldsAgent(Reap(r, a, rest), a), HoldsAgent(pc', a))
      && Life(x', a, pc', t, gone) && !OwnerAlive(x, gone)
      && (r.SPut? ==> !HoldsAgent(pc', a) && x' == x.(owner := None))
      && (!r.SPut? ==> x'.owner == x.owner && (HoldsAgent(Reap(r, a, rest), a) || HoldsAgent(pc', a)))
  {
  }

  lemma ReapPosition(s: System, t: Tid)
    requires Locks(s) && Listed(s) && Threads(s) && AgentsOk(s) && At(s, t).Reap? && !At(s, t).r.SLock?
    requires !At(s, t).r.SWalk?
    ensures var pc := At(s, t);
      && pc.a in s.agents && PcOk(s, t, pc) && s.gLock == Some(t)
      && Life(s.agents[pc.a], pc.a, pc, t, s.gone)
      && (!pc.r.SPut? && (pc.r.SAcquire? ==> s.agents[pc.a].lock.None?) ==> LocalOk(s.agents[pc.a], HolderPc(pc, pc.a)))
  {
    var pc := At(s, t);
    assert PcOk(s, t, pc);
    assert s.gLock == Some(t) <==> HoldsGlobal(pc);
    assert AgentOk(s, pc.a);
    assert s.agents[pc.a].lock == Some(t) <==> HoldsAgent(pc, pc.a);
  }

  lemma ReapTouchKeeps(s: System, t: Tid)
    requires Inv(s) && t !in s.gone && At(s, t).Reap? && Unblocked(s, At(s, t))
    requires !At(s, t).r.SLock? && !At(s, t).r.SWalk? && !At(s, t).r.SPut?
    ensures var pc := At(s, t); Inv(ReapStep(s, t, pc.r, pc.a, pc.rest))
  {
    hide LocalOk, Listed, Locks, Private, PcOk, RefsOk, AgentsOk, Threads, Life;
    var pc := At(s, t);
    ReapPosition(s, t);
    var a, x := pc.a, s.agents[pc.a];
    var (x', pc') := ReapEffect(x, t, pc.r, a, pc.rest);
    var s' := ReapStep(s, t, pc.r, a, pc.rest);
    ReapShape(x, t, pc.r, a, pc.rest, s.gone);
    ReapLocal(x, t, pc.r, a, pc.rest);
    ReapWriteKeeps(s, s', t, a, x', pc');
    RefsKeep(s, s');
  }

  lemma ReapPutKeeps(s: System, t: Tid)
    requires Inv(s) && t !in s.gone && At(s, t).Reap? && Unblocked(s, At(s, t)) && At(s, t).r.SPut?
    ensures var pc := At(s, t); Inv(ReapStep(s, t, pc.r, pc.a, pc.rest))
  {
    var pc := At(s, t);
    ReapPosition(s, t);
    var a, x := pc.a, s.agents[pc.a];
    var s' := ReapStep(s, t, pc.r, a, pc.rest);
    ReapShape(x, t, pc.r, a, pc.rest, s.gone);
    ReapWriteKeeps(s, s', t, a, x.(owner := None), Reap(SWalk, 0, pc.rest));
    DropRefKeeps(s, s', a);
  }

  lemma ReapWriteKeeps(s: System, s': System, t: Tid, a: AgentId, x': Agent, pc': Pc)
    requires Locks(s) && Listed(s) && Threads(s) && Private(s) && AgentsOk(s) && t !in s.gone && a in s.agents
    requires At(s, t).Reap? && At(s, t).a == a && !At(s, t).r.SLock? && !At(s, t).r.SWalk?
    requires s'.agents == s.agents[a := x'] && s'.threads == s.threads[t := pc']
    requires s'.list == s.list && s'.gLock == s.gLock && s'.gone == s.gone && s'.unloading == s.unloading
    requires pc'.Reap? && HoldsGlobal(pc') && About(pc', a) && pc'.rest == At(s, t).rest && (pc'.r.SWalk? || pc'.a == a)
    requires x'.name == s.agents[a].name && Life(x', a, pc', t, s.gone) && !OwnerAlive(s.agents[a], s.gone)
    requires LocalMove(s.agents[a], x', t, a, At(s, t), pc')
    ensures Locks(s') && Listed(s') && Threads(s') && Private(s') && AgentsOk(s')
  {
    assert PcOk(s, t, At(s, t));
    forall u: Tid ensures !Builds(At(s, u), a) {
      if Builds(At(s, u), a) { BuilderOwns(s, u, a); }
    }
    GlobalWriteKeeps(s, s', t, a, x', pc');
  }

  // ----- steps that only move a thread ----------------------------------

  /** Thread t moves to a position that singles out no agent and holds none; the global lock may
      change hands. */
  lemma MoveKeeps(s: System, s': System, t: Tid, pc': Pc)
    requires Locks(s) && Listed(s) && Threads(s) && Private(s) && AgentsOk(s) && t !in s.gone
    requires s'.agents == s.agents && s'.list == s.list && s'.gone == s.gone && s'.unloading == s.unloading
    requires s'.threads == s.threads[t := pc'] && GlobalMoves(s, s', t)
    requires forall a :: !HoldsAgent(At(s, t), a) && !HoldsAgent(pc', a) && !Targets(At(s, t), a) && !Targets(pc', a)
    requires forall a :: Builds(pc', a) ==> Builds(At(s, t), a)
    requires !pc'.Mail? && PcOk(s', t, pc') && (if s.unloading then pc'.Idle? || pc'.Unload? else !pc'.Unload?)
    ensures Locks(s') && Listed(s') && Threads(s') && Private(s') && AgentsOk(s')
  {
    hide PcOk, Private, Threads, AgentsOk, Life, LocalOk, Listed, Locks;
    assert Frame(s, s', t, {}) && At(s', t) == pc';
    ListedKeep(s, s', t, {});
    LocksKeep(s, s', t, {});
    ThreadsKeep(s, s', t, {});
    PrivateKeep(s, s', t);
    AgentsKeep(s, s', t, {});
  }

  /** The holder of the global lock singles out an agent of the list. */
  lemma SingleOutKeeps(s: System, s': System, t: Tid, a: AgentId, pc': Pc)
    requires Locks(s) && Listed(s) && Threads(s) && Private(s) && AgentsOk(s) && t !in s.gone && a in s.agents
    requires s' == Go(s, t, pc') && HoldsGlobal(At(s, t)) && HoldsGlobal(pc') && !At(s, t).Unload? && !pc'.Unload?
    requires !pc'.Mail?
    requires About(At(s, t), a) && About(pc', a) && !HoldsAgent(At(s, t), a) && !HoldsAgent(pc', a)
    requires forall b :: !Builds(pc', b)
    requires PcOk(s', t, pc') && Life(s.agents[a], a, pc', t, s.gone)
    ensures Locks(s') && Listed(s') && Threads(s') && Private(s') && AgentsOk(s')
  {
    assert s.agents == s.agents[a := s.agents[a]];
    GlobalWriteKeeps(s, s', t, a, s.agents[a], pc');
  }

  lemma WalkPosition(s: System, s': System, t: Tid)
    requires Locks(s) && Listed(s) && Threads(s) && AgentsOk(s) && At(s, t).Reap? && At(s, t).r.SWalk?
    ensures s.gLock == Some(t) && !s.unloading
    ensures var rest := At(s, t).rest; s'.list == s.list && rest != [] ==>
      PcOk(s', t, Reap(SWalk, 0, rest[1..])) && PcOk(s', t, Reap(SAcquire, rest[0], rest[1..]))
    ensures var rest := At(s, t).rest;
      rest != [] && rest[0] in s.agents && !s.agents[rest[0]].dead && !OwnerAlive(s.agents[rest[0]], s.gone) ==>
        Life(s.agents[rest[0]], rest[0], Reap(SAcquire, rest[0], rest[1..]), t, s.gone)
  {
    var pc := At(s, t);
    assert PcOk(s, t, pc);
    assert s.gLock == Some(t) <==> HoldsGlobal(pc);
    if pc.rest != [] { assert pc.rest[0] in s.list; }
  }

  lemma WalkKeeps(s: System, t: Tid)
    requires Inv(s) && t !in s.gone && At(s, t).Reap? && At(s, t).r.SWalk?
    ensures Inv(WalkStep(s, t, At(s, t).rest))
  {
    hide PcOk, Private, Threads, AgentsOk, Life, Listed, Locks, RefsOk;
    var rest := At(s, t).rest;
    var s' := WalkStep(s, t, rest);
    WalkPosition(s, s', t);
    RefsKeep(s, s');
    if rest == [] {
      IdleOk(s', t);
      MoveKeeps(s, s', t, Idle);
    } else {
      var a := rest[0];
      if a !in s.agents || s.agents[a].dead || OwnerAlive(s.agents[a], s.gone) {
        MoveKeeps(s, s', t, Reap(SWalk, 0, rest[1..]));
      } else {
        SingleOutKeeps(s, s', t, a, Reap(SAcquire, a, rest[1..]));
      }
    }
  }

  lemma IdleOk(s: System, t: Tid)
    ensures PcOk(s, t, Idle)
  {
  }

  lemma ReapKeeps(s: System, t: Tid)
    requires Inv(s) && t !in s.gone && At(s, t).Reap? && Unblocked(s, At(s, t))
    ensures var pc := At(s, t); Inv(ReapStep(s, t, pc.r, pc.a, pc.rest))
  {
    var pc := At(s, t);
    if pc.r.SLock? {
      var s' := ReapStep(s, t, pc.r, pc.a, pc.rest);
      MoveKeeps(s, s', t, Reap(SWalk, 0, s.list));
      RefsKeep(s, s');
    } else if pc.r.SWalk? {
      WalkKeeps(s, t);
    } else if pc.r.SPut? {
      ReapPutKeeps(s, t);
    } else {
      ReapTouchKeeps(s, t);
    }
  }

  // ----- registration: recycling an entry -------------------------------

  lemma RecycleDrainLocal(x: Agent, n: string, a: AgentId, k: Kind)
    requires LocalOk(x, Register(GDrain(k), n, a))
    ensures LocalOk(DrainTurn(x, k),
      Register(if Box(x, k).messages != [] then GDrain(k) else if k == Inbox then GDrain(Outbox) else GPut, n, a))
  {
    DrainLocal(x, k);
  }

  lemma RecycleLocal(x: Agent, t: Tid, g: RegStage, n: string, a: AgentId, gone: set<Tid>)
    requires Recycling(g) && LocalOk(x, HolderPc(Register(g, n, a), a))
    ensures var (x', pc') := RecycleEffect(x, t, g, n, a, gone); LocalOk(x', HolderPc(pc', a))
  {
    hide Fifo, Bounded, Sum;
    if g.GDrain? { RecycleDrainLocal(x, n, a, g.k); } else { RecycleOtherLocal(x, t, g, n, a, gone); }
  }

  lemma RecycleOtherLocal(x: Agent, t: Tid, g: RegStage, n: string, a: AgentId, gone: set<Tid>)
    requires Recycling(g) && !g.GDrain? && LocalOk(x, HolderPc(Register(g, n, a), a))
    ensures var (x', pc') := RecycleEffect(x, t, g, n, a, gone); LocalOk(x', HolderPc(pc', a))
  {
  }

  /** Which points write the owner or the dead flag. */
  predicate WritesLife(g: RegStage) { g.GPut? || g.GOwn? || g.GRevive? }

  lemma RecycleShape(x: Agent, t: Tid, g: RegStage, n: string, a: AgentId, gone: set<Tid>)
    requires Recycling(g) && (g.GAcquire? ==> x.lock.None?) && t !in gone
    requires Life(x, a, Register(g, n, a), t, gone)
    ensures var (x', pc') := RecycleEffect(x, t, g, n, a, gone);
      && x'.name == x.name && pc'.Register? && pc'.a == a && pc'.n == n && (Recycling(pc'.g) || pc'.g.GUnlock?)
      && LockShape(x, x', t, HoldsAgent(Register(g, n, a), a), HoldsAgent(pc', a))
      && (HoldsAgent(Register(g, n, a), a) || HoldsAgent(pc', a))
      && Life(x', a, pc', t, gone)
      && (if g.GPut? then x'.owner.None?
          else if g.GOwn? then x.owner.None? && x'.owner == Some(t)
          else x'.owner == x.owner)
      && (!WritesLife(g) ==> x'.dead == x.dead)
      && (WritesLife(g) ==> !OwnerAlive(x, gone) || x.owner == Some(t))
  {
  }

  lemma RecyclePosition(s: System, t: Tid)
    requires Locks(s) && Listed(s) && Threads(s) && AgentsOk(s) && At(s, t).Register? && Recycling(At(s, t).g)
    ensures var pc := At(s, t);
      && pc.a in s.agents && PcOk(s, t, pc) && s.gLock == Some(t) && pc.a in s.list
      && Life(s.agents[pc.a], pc.a, pc, t, s.gone)
      && ((pc.g.GAcquire? ==> s.agents[pc.a].lock.None?) ==> LocalOk(s.agents[pc.a], HolderPc(pc, pc.a)))
  {
    var pc := At(s, t);
    assert PcOk(s, t, pc);
    assert s.gLock == Some(t) <==> HoldsGlobal(pc);
    assert AgentOk(s, pc.a);
    assert s.agents[pc.a].lock == Some(t) <==> HoldsAgent(pc, pc.a);
  }

  lemma RecycleWriteKeeps(s: System, s': System, t: Tid, a: AgentId, x': Agent, pc': Pc)
    requires Locks(s) && Listed(s) && Threads(s) && Private(s) && AgentsOk(s) && t !in s.gone && a in s.list
    requires a in s.agents
    requires At(s, t).Register? && At(s, t).a == a && Recycling(At(s, t).g)
    requires s'.agents == s.agents[a := x'] && s'.threads == s.threads[t := pc']
    requires s'.list == s.list && s'.gLock == s.gLock && s'.gone == s.gone && s'.unloading == s.unloading
    requires pc'.Register? && pc'.a == a && pc'.n == At(s, t).n && (Recycling(pc'.g) || pc'.g.GUnlock?)
    requires x'.name == s.agents[a].name && Life(x', a, pc', t, s.gone)
    requires LockShape(s.agents[a], x', t, HoldsAgent(At(s, t), a), HoldsAgent(pc', a))
    requires (HoldsAgent(At(s, t), a) || HoldsAgent(pc', a)) && LocalOk(x', HolderPc(pc', a))
    requires (x'.owner == s.agents[a].owner && x'.dead == s.agents[a].dead) || !OwnerAlive(s.agents[a], s.gone) ||
      s.agents[a].owner == Some(t)
    ensures Locks(s') && Listed(s') && Threads(s') && Private(s') && AgentsOk(s')
  {
    hide LocalOk, Listed, Locks, AgentsOk, Private;
    assert PcOk(s, t, At(s, t));
    if x'.owner != s.agents[a].owner || x'.dead != s.agents[a].dead {
      forall u: Tid | u != t ensures !Builds(At(s, u), a) {
        if Builds(At(s, u), a) { BuilderOwns(s, u, a); }
      }
    }
    GlobalWriteKeeps(s, s', t, a, x', pc');
  }

  lemma RecycleKeeps(s: System, t: Tid)
    requires Inv(s) && t !in s.gone && At(s, t).Register? && Recycling(At(s, t).g) && Unblocked(s, At(s, t))
    ensures var pc := At(s, t); Inv(RecycleStep(s, t, pc.g, pc.n, pc.a))
  {
    hide LocalOk, Listed, Locks, Private, PcOk, RefsOk, AgentsOk, Threads, Life;
    var pc := At(s, t);
    RecyclePosition(s, t);
    var a, x, g := pc.a, s.agents[pc.a], pc.g;
    var (x', pc') := RecycleEffect(x, t, g, pc.n, a, s.gone);
    var s' := RecycleStep(s, t, g, pc.n, a);
    RecycleShape(x, t, g, pc.n, a, s.gone);
    RecycleLocal(x, t, g, pc.n, a, s.gone);
    RecycleWriteKeeps(s, s', t, a, x', pc');
    RecycleRefs(s, s', t, a, g, x');
  }

  lemma RecycleRefs(s: System, s': System, t: Tid, a: AgentId, g: RegStage, x': Agent)
    requires RefsOk(s) && a in s.agents && s'.agents == s.agents[a := x']
    requires s'.refs == (if g.GPut? then PutOwner(s, s.agents[a]) else if g.GOwn? then AddRef(s, t, 1) else s).refs
    requires if g.GPut? then x'.owner.None? else if g.GOwn? then s.agents[a].owner.None? && x'.owner == Some(t)
             else x'.owner == s.agents[a].owner
    ensures RefsOk(s')
  {
    if g.GPut? { DropRefKeeps(s, s', a); } else if g.GOwn? { TakeRefKeeps(s, s', a, t); } else { RefsKeep(s, s'); }
  }

  // ----- registration: the scan and a new entry -------------------------

  lemma ScanPosition(s: System, t: Tid)
    requires Locks(s) && Listed(s) && Threads(s) && AgentsOk(s) && At(s, t).Register? && At(s, t).g.GScan?
    ensures s.gLock == Some(t) && !s.unloading
    ensures var pc, i := At(s, t), At(s, t).g.i; i < |s.list| ==>
      s.list[i] in s.agents && Life(s.agents[s.list[i]], s.list[i], Register(GAcquire, pc.n, s.list[i]), t, s.gone)
  {
    var pc := At(s, t);
    assert PcOk(s, t, pc);
    assert s.gLock == Some(t) <==> HoldsGlobal(pc);
    if pc.g.i < |s.list| { assert AgentOk(s, s.list[pc.g.i]); }
  }

  lemma ScanPcOk(s: System, s': System, t: Tid)
    requires Listed(s) && Threads(s) && At(s, t).Register? && At(s, t).g.GScan? && s'.list == s.list
    requires s'.agents == s.agents
    ensures var pc, i := At(s, t), At(s, t).g.i;
      if i >= |s.list| then PcOk(s', t, Register(GInsert, pc.n, pc.a))
      else if s.agents[s.list[i]].name == pc.n then PcOk(s', t, Register(GAcquire, pc.n, s.list[i]))
      else PcOk(s', t, Register(GScan(i + 1), pc.n, pc.a))
  {
    assert PcOk(s, t, At(s, t));
  }

  lemma ScanKeeps(s: System, t: Tid)
    requires Inv(s) && t !in s.gone && At(s, t).Register? && At(s, t).g.GScan?
    ensures var pc := At(s, t); Inv(RegisterStep(s, t, pc.g, pc.n, pc.a, 0, true))
  {
    hide PcOk, Private, Threads, AgentsOk, Life, Listed, Locks, RefsOk;
    var pc := At(s, t);
    var i := pc.g.i;
    var s' := RegisterStep(s, t, pc.g, pc.n, pc.a, 0, true);
    ScanPosition(s, t);
    ScanPcOk(s, s', t);
    RefsKeep(s, s');
    if i >= |s.list| {
      MoveKeeps(s, s', t, Register(GInsert, pc.n, pc.a));
    } else if s.agents[s.list[i]].name == pc.n {
      SingleOutKeeps(s, s', t, s.list[i], Register(GAcquire, pc.n, s.list[i]));
    } else {
      MoveKeeps(s, s', t, Register(GScan(i + 1), pc.n, pc.a));
    }
  }

  /** The points at which registration only moves, or takes or drops the global lock. */
  predicate OnlyMoves(g: RegStage) {
    g.GLock? || g.GUnlock? || g.GPublish? || g.GBuild? || g.GRelock? || g.GUnlockDelisted?
  }

  lemma RegisterMovePosition(s: System, t: Tid, ok: bool)
    requires Locks(s) && Threads(s) && At(s, t).Register? && OnlyMoves(At(s, t).g) && Unblocked(s, At(s, t))
    ensures var pc, s' := At(s, t), RegisterStep(s, t, At(s, t).g, At(s, t).n, At(s, t).a, 0, ok);
      && PcOk(s', t, At(s', t)) && !s.unloading && GlobalMoves(s, s', t)
      && (HoldsGlobal(pc) ==> s.gLock == Some(t))
  {
    assert PcOk(s, t, At(s, t));
    assert s.gLock == Some(t) <==> HoldsGlobal(At(s, t));
  }

  lemma RegisterMoveKeeps(s: System, t: Tid, ok: bool)
    requires Inv(s) && t !in s.gone && At(s, t).Register? && OnlyMoves(At(s, t).g) && Unblocked(s, At(s, t))
    ensures var pc := At(s, t); Inv(RegisterStep(s, t, pc.g, pc.n, pc.a, 0, ok))
  {
    hide PcOk, Private, Threads, AgentsOk, Life, Listed, Locks, RefsOk;
    var pc := At(s, t);
    var s' := RegisterStep(s, t, pc.g, pc.n, pc.a, 0, ok);
    RegisterMovePosition(s, t, ok);
    RefsKeep(s, s');
    MoveKeeps(s, s', t, At(s', t));
  }
}
