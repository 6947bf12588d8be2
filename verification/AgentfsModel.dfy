/** kernel/agentfs.c as threads interleaving at the grain of single writes to shared fields.
    Every lock has an explicit owner, and a thread's position says which locks it holds.
    Readers, writers, pollers, registrants, the reaper and module unload all take part. */
module AgentfsModel {
  import opened AgentNames
  import opened Options

  const AGENTFS_MAX_NAME := 64
  const AGENTFS_MAX_MESSAGE := 0x10_0000
  const AGENTFS_MAX_QUEUE_BYTES := 0x80_0000
  const AGENTFS_MAX_QUEUE_MSGS := 1024

  type Tid = nat
  type AgentId = nat
  type Message = string

  datatype Kind = Inbox | Outbox

  /** How a message left a queue. */
  datatype Removal = ReadBy(reader: Tid, message: Message) | Drained(message: Message)

  /** A queue with its counters, and the history of what was accepted and what was removed. */
  datatype Mailbox = Mailbox(
    messages: seq<Message>, queuedBytes: int, queuedMessages: int, processed: int,
    accepted: seq<Message>, removed: seq<Removal>)

  const EMPTY_MAILBOX := Mailbox([], 0, 0, 0, [], [])

  datatype Agent = Agent(
    name: string, owner: Option<Tid>, dead: bool, lock: Option<Tid>, inbox: Mailbox, outbox: Mailbox)

  /** The points of mailbox_write, mailbox_read and mailbox_poll. */
  datatype MailStage =
    | WLock(m: Message) | WCheck(m: Message) | WBytes(m: Message) | WCount(m: Message)
    | RLock | RCheck | RBytes(m: Message) | RCount(m: Message) | RRelease | RWait
    | PLock | PCheck | MUnlock

  /** The points of agentfs_reaper. */
  datatype ReapStage = SLock | SWalk | SAcquire | SDead | SDrain(k: Kind) | SUnlock | SPut

  /** The points of agentfs_register: the scan, the recycling of an entry, and the insertion. */
  datatype RegStage =
    | GLock | GScan(i: nat) | GUnlock
    | GAcquire | GHave | GRefuse | GDrain(k: Kind) | GPut | GOwn | GRevive | GRelease
    | GInsert | GPublish | GBuild | GRelock | GDelist | GUnlockDelisted | GFree

  datatype UnloadStage = XLock | XWalk

  /** Where a thread stands. */
  datatype Pc =
    | Idle
    | Mail(a: AgentId, k: Kind, m: MailStage)
    | Reap(r: ReapStage, a: AgentId, rest: seq<AgentId>)
    | Register(g: RegStage, n: string, a: AgentId)
    | Unload(x: UnloadStage)

  datatype System = System(
    agents: map<AgentId, Agent>,
    list: seq<AgentId>,
    gLock: Option<Tid>,
    threads: map<Tid, Pc>,
    gone: set<Tid>,
    refs: map<Tid, int>,
    unloading: bool)

  const INITIAL := System(map[], [], None, map[], {}, map[], false)

  function At(s: System, t: Tid): Pc { if t in s.threads then s.threads[t] else Idle }

  function Refs(s: System, t: Tid): int { if t in s.refs then s.refs[t] else 0 }

  // ----- which locks a position holds -----------------------------------

  predicate HoldsAgent(pc: Pc, a: AgentId) {
    match pc
    case Mail(b, _, m) => b == a && !m.WLock? && !m.RLock? && !m.RWait? && !m.PLock?
    case Reap(r, b, _) => b == a && (r.SDead? || r.SDrain? || r.SUnlock?)
    case Register(g, _, b) =>
      b == a && (g.GHave? || g.GRefuse? || g.GDrain? || g.GPut? || g.GOwn? || g.GRevive? || g.GRelease?)
    case _ => false
  }

  predicate HoldsGlobal(pc: Pc) {
    match pc
    case Reap(r, _, _) => !r.SLock?
    case Register(g, _, _) => !g.GLock? && !g.GBuild? && !g.GRelock? && !g.GFree?
    case Unload(x) => x.XWalk?
    case _ => false
  }

  // ----- mailboxes ------------------------------------------------------

  function Box(a: Agent, k: Kind): Mailbox { if k == Inbox then a.inbox else a.outbox }

  function WithBox(a: Agent, k: Kind, mb: Mailbox): Agent {
    if k == Inbox then a.(inbox := mb) else a.(outbox := mb)
  }

  predicate Full(mb: Mailbox, len: nat) {
    mb.queuedMessages >= AGENTFS_MAX_QUEUE_MSGS || mb.queuedBytes + len > AGENTFS_MAX_QUEUE_BYTES
  }

  function Appended(mb: Mailbox, m: Message): Mailbox {
    mb.(messages := mb.messages + [m], accepted := mb.accepted + [m])
  }

  function Unlinked(mb: Mailbox, r: Removal): Mailbox
    requires mb.messages != []
  {
    mb.(messages := mb.messages[1..], removed := mb.removed + [r])
  }

  /** One turn of a drain loop; counters are reset once the list is empty. */
  function DrainTurn(a: Agent, k: Kind): Agent {
    var mb := Box(a, k);
    if mb.messages != [] then WithBox(a, k, Unlinked(mb, Drained(mb.messages[0])))
    else WithBox(a, k, mb.(queuedBytes := 0, queuedMessages := 0))
  }

  // ----- steps ----------------------------------------------------------

  function Go(s: System, t: Tid, pc: Pc): System { s.(threads := s.threads[t := pc]) }

  /** Thread t writes agent a and moves on. */
  function Write(s: System, t: Tid, a: AgentId, x: Agent, pc: Pc): System {
    s.(agents := s.agents[a := x], threads := s.threads[t := pc])
  }

  function AddRef(s: System, u: Tid, d: int): System { s.(refs := s.refs[u := Refs(s, u) + d]) }

  predicate OwnerAlive(x: Agent, gone: set<Tid>) { x.owner.Some? && x.owner.value !in gone }

  predicate NameOk(n: string) {
    && 0 < |n| < AGENTFS_MAX_NAME && n[0] != '.' && n[0] != '-'
    && forall i :: 0 <= i < |n| ==> NameChar(n[i])
  }

  /** What the thread does to agent a at one point of a mailbox operation, and where it goes. */
  function MailEffect(x: Agent, t: Tid, a: AgentId, k: Kind, m: MailStage): (Agent, Pc) {
    var mb := Box(x, k);
    match m
    case WLock(d) => (x.(lock := Some(t)), Mail(a, k, WCheck(d)))
    case WCheck(d) =>
      if x.dead || Full(mb, |d|) then (x, Mail(a, k, MUnlock))
      else (WithBox(x, k, Appended(mb, d)), Mail(a, k, WBytes(d)))
    case WBytes(d) => (WithBox(x, k, mb.(queuedBytes := mb.queuedBytes + |d|)), Mail(a, k, WCount(d)))
    case WCount(d) => (WithBox(x, k, mb.(queuedMessages := mb.queuedMessages + 1)), Mail(a, k, MUnlock))
    case RLock => (x.(lock := Some(t)), Mail(a, k, RCheck))
    case RCheck =>
      if mb.messages != [] then
        (WithBox(x, k, Unlinked(mb, ReadBy(t, mb.messages[0]))), Mail(a, k, RBytes(mb.messages[0])))
      else (x, Mail(a, k, if x.dead then MUnlock else RRelease))
    case RBytes(d) => (WithBox(x, k, mb.(queuedBytes := mb.queuedBytes - |d|)), Mail(a, k, RCount(d)))
    case RCount(d) =>
      (WithBox(x, k, mb.(queuedMessages := mb.queuedMessages - 1, processed := mb.processed + 1)), Mail(a, k, MUnlock))
    case RRelease => (x.(lock := None), Mail(a, k, RWait))
    case RWait => (x, Mail(a, k, RLock))
    case PLock => (x.(lock := Some(t)), Mail(a, k, PCheck))
    case PCheck => (x, Mail(a, k, MUnlock))
    case MUnlock => (x.(lock := None), Idle)
  }

  /** put_task_struct, for an owner pointer that may be null. */
  function PutOwner(s: System, x: Agent): System {
    match x.owner
    case None => s
    case Some(u) => AddRef(s, u, -1)
  }

  function WalkStep(s: System, t: Tid, rest: seq<AgentId>): System {
    if rest == [] then Go(s.(gLock := None), t, Idle)
    else
      var a := rest[0];
      if a !in s.agents || s.agents[a].dead || OwnerAlive(s.agents[a], s.gone) then Go(s, t, Reap(SWalk, 0, rest[1..]))
      else Go(s, t, Reap(SAcquire, a, rest[1..]))
  }

  /** The reaper at work on agent a. */
  function ReapEffect(x: Agent, t: Tid, r: ReapStage, a: AgentId, rest: seq<AgentId>): (Agent, Pc) {
    match r
    case SLock => (x, Idle)
    case SWalk => (x, Idle)
    case SAcquire => (x.(lock := Some(t)), Reap(SDead, a, rest))
    case SDead => (x.(dead := true), Reap(SDrain(Inbox), a, rest))
    case SDrain(k) =>
      var next := if Box(x, k).messages != [] then SDrain(k) else if k == Inbox then SDrain(Outbox) else SUnlock;
      (DrainTurn(x, k), Reap(next, a, rest))
    case SUnlock => (x.(lock := None), Reap(SPut, a, rest))
    case SPut => (x.(owner := None), Reap(SWalk, 0, rest))
  }

  function ReapStep(s: System, t: Tid, r: ReapStage, a: AgentId, rest: seq<AgentId>): System
    requires !r.SLock? && !r.SWalk? ==> a in s.agents
  {
    match r
    case SLock => Go(s.(gLock := Some(t)), t, Reap(SWalk, 0, s.list))
    case SWalk => WalkStep(s, t, rest)
    case _ =>
      var (x', pc') := ReapEffect(s.agents[a], t, r, a, rest);
      Write(if r.SPut? then PutOwner(s, s.agents[a]) else s, t, a, x', pc')
  }

  predicate Recyclable(x: Agent, gone: set<Tid>) {
    x.dead || (x.owner.Some? && x.owner.value in gone)
  }

  /** Registration at work on an existing entry of the same name. */
  function RecycleEffect(x: Agent, t: Tid, g: RegStage, n: string, a: AgentId, gone: set<Tid>): (Agent, Pc) {
    match g
    case GAcquire => (x.(lock := Some(t)), Register(GHave, n, a))
    case GHave => (x, Register(if Recyclable(x, gone) then GDrain(Inbox) else GRefuse, n, a))
    case GRefuse => (x.(lock := None), Register(GUnlock, n, a))
    case GDrain(k) =>
      var next := if Box(x, k).messages != [] then GDrain(k) else if k == Inbox then GDrain(Outbox) else GPut;
      (DrainTurn(x, k), Register(next, n, a))
    case GPut => (x.(owner := None), Register(GOwn, n, a))
    case GOwn => (x.(owner := Some(t)), Register(GRevive, n, a))
    case GRevive =>
      (x.(dead := false, inbox := x.inbox.(processed := 0), outbox := x.outbox.(processed := 0)),
       Register(GRelease, n, a))
    case GRelease => (x.(lock := None), Register(GUnlock, n, a))
    case _ => (x, Idle)
  }

  function RecycleStep(s: System, t: Tid, g: RegStage, n: string, a: AgentId): System
    requires a in s.agents
  {
    var (x', pc') := RecycleEffect(s.agents[a], t, g, n, a, s.gone);
    Write(if g.GPut? then PutOwner(s, s.agents[a]) else if g.GOwn? then AddRef(s, t, 1) else s, t, a, x', pc')
  }

  function Without(list: seq<AgentId>, a: AgentId): seq<AgentId> {
    if list == [] then [] else if list[0] == a then list[1..] else [list[0]] + Without(list[1..], a)
  }

  predicate Recycling(g: RegStage) {
    g.GAcquire? || g.GHave? || g.GRefuse? || g.GDrain? || g.GPut? || g.GOwn? || g.GRevive? || g.GRelease?
  }

  function RegisterStep(s: System, t: Tid, g: RegStage, n: string, a: AgentId, newId: AgentId, ok: bool): System
    requires Recycling(g) || g.GFree? ==> a in s.agents
  {
    match g
    case GLock => Go(s.(gLock := Some(t)), t, Register(GScan(0), n, a))
    case GScan(i) =>
      if i >= |s.list| then Go(s, t, Register(GInsert, n, a))
      else if s.list[i] in s.agents && s.agents[s.list[i]].name == n then Go(s, t, Register(GAcquire, n, s.list[i]))
      else Go(s, t, Register(GScan(i + 1), n, a))
    case GUnlock => Go(s.(gLock := None), t, Idle)
    case GInsert =>
      var x := Agent(n, Some(t), false, None, EMPTY_MAILBOX, EMPTY_MAILBOX);
      Write(AddRef(s.(list := [newId] + s.list), t, 1), t, newId, x, Register(GPublish, n, newId))
    case GPublish => Go(s.(gLock := None), t, Register(GBuild, n, a))
    case GBuild => Go(s, t, if ok then Idle else Register(GRelock, n, a))
    case GRelock => Go(s.(gLock := Some(t)), t, Register(GDelist, n, a))
    case GDelist => Go(s.(list := Without(s.list, a)), t, Register(GUnlockDelisted, n, a))
    case GUnlockDelisted => Go(s.(gLock := None), t, Register(GFree, n, a))
    case GFree => Go(FreeAgent(s, a), t, Idle)
    case _ => RecycleStep(s, t, g, n, a)
  }

  /** put_task_struct and kfree. */
  function FreeAgent(s: System, a: AgentId): System
    requires a in s.agents
  {
    PutOwner(s, s.agents[a]).(agents := s.agents - {a})
  }

  function UnloadStep(s: System, t: Tid, x: UnloadStage): System {
    match x
    case XLock => Go(s.(gLock := Some(t)), t, Unload(XWalk))
    case XWalk =>
      if s.list == [] then Go(s.(gLock := None), t, Idle)
      else if s.list[0] in s.agents then FreeAgent(s, s.list[0]).(list := s.list[1..])
      else s.(list := s.list[1..])
  }

  function MailStep(s: System, t: Tid, a: AgentId, k: Kind, m: MailStage): System
    requires a in s.agents
  {
    var (x', pc') := MailEffect(s.agents[a], t, a, k, m);
    Write(s, t, a, x', pc')
  }

  // ----- runs -----------------------------------------------------------

  /** Calls a thread may make, and the choices the environment makes inside them.
      GiveUp is a read that finds nothing and does not wait: O_NONBLOCK, or a signal. */
  datatype Choice =
    | CallWrite(a: AgentId, k: Kind, m: Message)
    | CallRead(a: AgentId, k: Kind)
    | CallPoll(a: AgentId, k: Kind)
    | CallReap
    | CallRegister(n: string)
    | CallUnload
    | Exit
    | GiveUp
    | Proceed(newId: AgentId, ok: bool)

  /** The registrant is still building the directory of agent a, or taking it down again. */
  predicate Builds(pc: Pc, a: AgentId) {
    pc.Register? && pc.a == a &&
    (pc.g.GPublish? || pc.g.GBuild? || pc.g.GRelock? || pc.g.GDelist? || pc.g.GUnlockDelisted? || pc.g.GFree?)
  }

  /** Only agents whose directory was built can be opened. */
  ghost predicate Published(s: System, a: AgentId) {
    a in s.agents && forall t :: !Builds(At(s, t), a)
  }

  /** The lock a thread must find free to take its next step. */
  predicate Unblocked(s: System, pc: Pc) {
    match pc
    case Mail(a, _, m) => a in s.agents && (m.WLock? || m.RLock? || m.PLock? ==> s.agents[a].lock.None?)
    case Reap(r, a, _) =>
      && (!r.SLock? && !r.SWalk? ==> a in s.agents)
      && (r.SLock? ==> s.gLock.None?)
      && (r.SAcquire? ==> s.agents[a].lock.None?)
    case Register(g, _, a) =>
      && (Recycling(g) || g.GFree? ==> a in s.agents)
      && (g.GLock? || g.GRelock? ==> s.gLock.None?)
      && (g.GAcquire? ==> s.agents[a].lock.None?)
    case Unload(x) => x.XLock? ==> s.gLock.None?
    case Idle => false
  }

  ghost predicate Enabled(s: System, t: Tid, c: Choice) {
    t !in s.gone &&
    match c
    case CallWrite(a, _, _) => At(s, t) == Idle && !s.unloading && Published(s, a)
    case CallRead(a, _) => At(s, t) == Idle && !s.unloading && Published(s, a)
    case CallPoll(a, _) => At(s, t) == Idle && !s.unloading && Published(s, a)
    case CallReap => At(s, t) == Idle && !s.unloading
    case CallRegister(n) => At(s, t) == Idle && !s.unloading && NameOk(n)
    case CallUnload => !s.unloading && forall u :: At(s, u) == Idle
    case Exit => At(s, t) == Idle
    case GiveUp => At(s, t).Mail? && At(s, t).m.RWait?
    case Proceed(newId, _) => Unblocked(s, At(s, t)) && newId !in s.agents
  }

  function Next(s: System, t: Tid, c: Choice): System
    requires c.Proceed? ==> Unblocked(s, At(s, t))
  {
    match c
    case CallWrite(a, k, m) => if 0 < |m| <= AGENTFS_MAX_MESSAGE then Go(s, t, Mail(a, k, WLock(m))) else s
    case CallRead(a, k) => Go(s, t, Mail(a, k, RLock))
    case CallPoll(a, k) => Go(s, t, Mail(a, k, PLock))
    case CallReap => Go(s, t, Reap(SLock, 0, []))
    case CallRegister(n) => Go(s, t, Register(GLock, n, 0))
    case CallUnload => Go(s.(unloading := true), t, Unload(XLock))
    case Exit => s.(gone := s.gone + {t})
    case GiveUp => Go(s, t, Idle)
    case Proceed(newId, ok) =>
      match At(s, t)
      case Mail(a, k, m) => MailStep(s, t, a, k, m)
      case Reap(r, a, rest) => ReapStep(s, t, r, a, rest)
      case Register(g, n, a) => RegisterStep(s, t, g, n, a, newId, ok)
      case Unload(x) => UnloadStep(s, t, x)
  }

  datatype Act = Act(t: Tid, c: Choice)

  ghost predicate Feasible(s: System, acts: seq<Act>)
    decreases |acts|
  {
    acts == [] || (Enabled(s, acts[0].t, acts[0].c) && Feasible(Next(s, acts[0].t, acts[0].c), acts[1..]))
  }

  ghost function Run(s: System, acts: seq<Act>): System
    requires Feasible(s, acts)
    decreases |acts|
  {
    if acts == [] then s else Run(Next(s, acts[0].t, acts[0].c), acts[1..])
  }
}
