/** The mailbox operations, the reaper's turn and re-registration as kernel/agentfs.c runs them on one
    entry. Each method is proved to do what its critical section does when the steps of AgentfsModel
    are taken one after the other, so the lemmas about interleavings are about this code. */
module Agentfs {
  import opened Options
  import opened AgentfsModel
  import opened AgentfsInvariant
  import AgentfsTheorems

  // ----- a critical section taken without interruption ------------------

  function Rank(m: MailStage): nat {
    match m
    case RWait => 0
    case MUnlock => 1
    case RRelease => 1
    case WCount(_) => 2
    case RCount(_) => 2
    case PCheck => 2
    case WBytes(_) => 3
    case RBytes(_) => 3
    case PLock => 3
    case WCheck(_) => 4
    case RCheck => 4
    case WLock(_) => 5
    case RLock => 5
  }

  /** The steps of a mailbox call from stage m until it returns or goes to sleep. */
  function MailSection(x: Agent, t: Tid, a: AgentId, k: Kind, m: MailStage): (Agent, Pc)
    requires !m.RWait?
    decreases Rank(m)
  {
    var (x', pc') := MailEffect(x, t, a, k, m);
    if pc'.Mail? && !pc'.m.RWait? then MailSection(x', t, a, k, pc'.m) else (x', pc')
  }

  /** A whole drain loop: every queued message is removed, oldest first, then the counters are reset. */
  function DrainedOut(x: Agent, k: Kind): Agent
    decreases |Box(x, k).messages|
  {
    if Box(x, k).messages == [] then DrainTurn(x, k) else DrainedOut(DrainTurn(x, k), k)
  }

  function ReapRank(x: Agent, r: ReapStage): nat {
    match r
    case SPut => 0
    case SUnlock => 1
    case SDrain(k) => (if k == Inbox then 1 + |x.inbox.messages| else 0) + 2 + |x.outbox.messages|
    case SDead => 4 + |x.inbox.messages| + |x.outbox.messages|
    case _ => 5 + |x.inbox.messages| + |x.outbox.messages|
  }

  /** The reaper's steps on one entry, from stage r until it has dropped the owner. */
  function ReapSection(x: Agent, t: Tid, r: ReapStage, a: AgentId, rest: seq<AgentId>): Agent
    requires !r.SLock? && !r.SWalk?
    decreases ReapRank(x, r)
  {
    var (x', pc') := ReapEffect(x, t, r, a, rest);
    if r.SPut? then x' else ReapSection(x', t, pc'.r, a, rest)
  }

  function RecycleRank(x: Agent, g: RegStage): nat {
    match g
    case GHave => 8 + |x.inbox.messages| + |x.outbox.messages|
    case GDrain(k) => (if k == Inbox then 1 + |x.inbox.messages| else 0) + 5 + |x.outbox.messages|
    case GPut => 4
    case GOwn => 3
    case GRevive => 2
    case GAcquire => 9 + |x.inbox.messages| + |x.outbox.messages|
    case _ => 0
  }

  /** Registration's steps on an entry of the same name, from stage g until its lock is free again. */
  function RecycleSection(x: Agent, t: Tid, g: RegStage, n: string, a: AgentId, gone: set<Tid>): Agent
    requires Recycling(g)
    decreases RecycleRank(x, g)
  {
    var (x', pc') := RecycleEffect(x, t, g, n, a, gone);
    if g.GRefuse? || g.GRelease? then x' else RecycleSection(x', t, pc'.g, n, a, gone)
  }

  /** An accepted write, or nothing. */
  function Written(x: Agent, k: Kind, m: Message): Agent {
    var mb := Box(x, k);
    if x.dead || Full(mb, |m|) then x
    else WithBox(x, k, Appended(mb, m).(queuedBytes := mb.queuedBytes + |m|, queuedMessages := mb.queuedMessages + 1))
  }

  function Taken(x: Agent, k: Kind, t: Tid): Agent {
    var mb := Box(x, k);
    if mb.messages == [] then x
    else WithBox(x, k, Unlinked(mb, ReadBy(t, mb.messages[0])).(queuedBytes := mb.queuedBytes - |mb.messages[0]|,
                       queuedMessages := mb.queuedMessages - 1, processed := mb.processed + 1))
  }

  lemma WriteIs(x: Agent, t: Tid, a: AgentId, k: Kind, m: Message)
    requires x.lock.None?
    ensures MailSection(x, t, a, k, WLock(m)) == (Written(x, k, m), Idle)
  {
    var x1 := x.(lock := Some(t));
    assert MailSection(x, t, a, k, WLock(m)) == MailSection(x1, t, a, k, WCheck(m));
    if !x.dead && !Full(Box(x, k), |m|) {
      var x2 := MailEffect(x1, t, a, k, WCheck(m)).0;
      var x3 := MailEffect(x2, t, a, k, WBytes(m)).0;
      var x4 := MailEffect(x3, t, a, k, WCount(m)).0;
      assert MailSection(x2, t, a, k, WBytes(m)) == MailSection(x3, t, a, k, WCount(m));
      assert MailSection(x3, t, a, k, WCount(m)) == MailSection(x4, t, a, k, MUnlock);
    } else {
      assert MailSection(x1, t, a, k, WCheck(m)) == MailSection(x1, t, a, k, MUnlock);
    }
  }

  lemma ReadIs(x: Agent, t: Tid, a: AgentId, k: Kind)
    requires x.lock.None?
    ensures MailSection(x, t, a, k, RLock) ==
      (Taken(x, k, t), if Box(x, k).messages == [] && !x.dead then Mail(a, k, RWait) else Idle)
  {
    var x1 := x.(lock := Some(t));
    assert MailSection(x, t, a, k, RLock) == MailSection(x1, t, a, k, RCheck);
    if Box(x, k).messages != [] {
      var m := Box(x, k).messages[0];
      var x2 := MailEffect(x1, t, a, k, RCheck).0;
      var x3 := MailEffect(x2, t, a, k, RBytes(m)).0;
      var x4 := MailEffect(x3, t, a, k, RCount(m)).0;
      assert MailSection(x1, t, a, k, RCheck) == MailSection(x2, t, a, k, RBytes(m));
      assert MailSection(x2, t, a, k, RBytes(m)) == MailSection(x3, t, a, k, RCount(m));
      assert MailSection(x3, t, a, k, RCount(m)) == MailSection(x4, t, a, k, MUnlock);
    }
  }

  lemma {:induction false} ReapDrains(x: Agent, t: Tid, k: Kind, a: AgentId, rest: seq<AgentId>)
    ensures ReapSection(x, t, SDrain(k), a, rest)
         == ReapSection(DrainedOut(x, k), t, if k == Inbox then SDrain(Outbox) else SUnlock, a, rest)
    decreases |Box(x, k).messages|
  {
    if Box(x, k).messages != [] { ReapDrains(DrainTurn(x, k), t, k, a, rest); }
  }

  lemma {:induction false} RecycleDrains(x: Agent, t: Tid, k: Kind, n: string, a: AgentId, gone: set<Tid>)
    ensures RecycleSection(x, t, GDrain(k), n, a, gone)
         == RecycleSection(DrainedOut(x, k), t, if k == Inbox then GDrain(Outbox) else GPut, n, a, gone)
    decreases |Box(x, k).messages|
  {
    if Box(x, k).messages != [] { RecycleDrains(DrainTurn(x, k), t, k, n, a, gone); }
  }

  /** What a drain leaves: nothing queued, counters at zero, the other mailbox untouched, and everything
      that was queued now removed in queue order. */
  lemma {:induction false} DrainedOutIs(x: Agent, k: Kind)
    ensures var mb, mb' := Box(x, k), Box(DrainedOut(x, k), k);
      && mb'.messages == [] && mb'.queuedBytes == 0 && mb'.queuedMessages == 0
      && mb'.processed == mb.processed && mb'.accepted == mb.accepted
      && Gist(mb'.removed) == Gist(mb.removed) + mb.messages
      && DrainedOut(x, k) == WithBox(x, k, mb')
    decreases |Box(x, k).messages|
  {
    var mb := Box(x, k);
    if mb.messages != [] {
      DrainedOutIs(DrainTurn(x, k), k);
      GistAppend(mb.removed, Removal.Drained(mb.messages[0]));
      assert [mb.messages[0]] + mb.messages[1..] == mb.messages;
    }
  }

  datatype WriteResult = Accepted | Empty | MsgSize | Shutdown | NoSpace
  datatype ReadResult = Got(m: Message) | Eof | WouldBlock

  /** One registered agent. */
  class Entry {
    const name: string
    var owner: Option<Tid>
    var dead: bool
    var inbox: Mailbox
    var outbox: Mailbox

    function State(): Agent
      reads this
    {
      Agent(name, owner, dead, None, inbox, outbox)
    }

    constructor (n: string, current: Tid)
      ensures State() == Agent(n, Some(current), false, None, EMPTY_MAILBOX, EMPTY_MAILBOX)
    {
      name, owner, dead, inbox, outbox := n, Some(current), false, EMPTY_MAILBOX, EMPTY_MAILBOX;
    }

    method SetBox(k: Kind, mb: Mailbox)
      modifies this`inbox, this`outbox
      ensures State() == WithBox(old(State()), k, mb)
    {
      if k == Inbox { inbox := mb; } else { outbox := mb; }
    }

    method Write(k: Kind, m: Message, ghost t: Tid, ghost a: AgentId) returns (r: WriteResult)
      modifies this`inbox, this`outbox
      ensures r == (if |m| == 0 then Empty else if |m| > AGENTFS_MAX_MESSAGE then MsgSize
                    else if dead then Shutdown
                    else if Box(old(State()), k).queuedMessages >= AGENTFS_MAX_QUEUE_MSGS then NoSpace
                    else if Box(old(State()), k).queuedBytes + |m| > AGENTFS_MAX_QUEUE_BYTES then NoSpace
                    else Accepted)
      ensures r.Empty? || r.MsgSize? ==> State() == old(State())
      ensures !r.Empty? && !r.MsgSize? ==> State() == MailSection(old(State()), t, a, k, WLock(m)).0
    {
      if |m| == 0 { return Empty; }
      if |m| > AGENTFS_MAX_MESSAGE { return MsgSize; }
      WriteIs(State(), t, a, k, m);
      if dead { return Shutdown; }
      var mb := Box(State(), k);
      if mb.queuedMessages >= AGENTFS_MAX_QUEUE_MSGS || mb.queuedBytes + |m| > AGENTFS_MAX_QUEUE_BYTES {
        return NoSpace;
      }
      mb := Appended(mb, m);
      mb := mb.(queuedBytes := mb.queuedBytes + |m|);
      mb := mb.(queuedMessages := mb.queuedMessages + 1);
      SetBox(k, mb);
      return Accepted;
    }

    /** One turn of the read loop; a blocking reader comes back here after it is woken. */
    method Read(k: Kind, t: Tid, ghost a: AgentId) returns (r: ReadResult)
      modifies this`inbox, this`outbox
      ensures State() == MailSection(old(State()), t, a, k, RLock).0
      ensures var was := Box(old(State()), k);
        r == (if was.messages != [] then Got(was.messages[0]) else if dead then Eof else WouldBlock)
    {
      ReadIs(State(), t, a, k);
      var mb := Box(State(), k);
      if dead && mb.messages == [] { return Eof; }
      if mb.messages != [] {
        var m := mb.messages[0];
        mb := Unlinked(mb, ReadBy(t, m));
        mb := mb.(queuedBytes := mb.queuedBytes - |m|);
        mb := mb.(queuedMessages := mb.queuedMessages - 1, processed := mb.processed + 1);
        SetBox(k, mb);
        return Got(m);
      }
      return WouldBlock;
    }

    method Drain(k: Kind)
      modifies this`inbox, this`outbox
      ensures State() == DrainedOut(old(State()), k)
    {
      while Box(State(), k).messages != []
        invariant DrainedOut(State(), k) == DrainedOut(old(State()), k)
        decreases |Box(State(), k).messages|
      {
        var mb := Box(State(), k);
        SetBox(k, Unlinked(mb, Removal.Drained(mb.messages[0])));
      }
      SetBox(k, Box(State(), k).(queuedBytes := 0, queuedMessages := 0));
    }

    /** The reaper at this entry; `ref` says whose task reference it dropped. */
    method Reap(gone: set<Tid>, ghost t: Tid, ghost a: AgentId) returns (ref: Option<Tid>)
      modifies this
      ensures if old(dead || OwnerAlive(State(), gone)) then ref == None && State() == old(State())
              else ref == old(owner) && State() == ReapSection(old(State()), t, SAcquire, a, [])
    {
      if dead { return None; }
      if OwnerAlive(State(), gone) { return None; }
      ReapIs(State(), t, a, []);
      dead := true;
      Drain(Inbox);
      Drain(Outbox);
      ref := owner;
      owner := None;
    }

    /** Registration of a name that is taken; false is EEXIST. */
    method Recycle(current: Tid, gone: set<Tid>, ghost a: AgentId) returns (ok: bool, ref: Option<Tid>)
      modifies this
      ensures ok == Recyclable(old(State()), gone)
      ensures old(dead) == old(owner.None?) ==> (ok <==> !OwnerAlive(old(State()), gone))
      ensures State() == RecycleSection(old(State()), current, GAcquire, name, a, gone)
      ensures ref == (if ok then old(owner) else None)
    {
      RecycleIs(State(), current, a, gone);
      var isDead := dead;
      if !isDead && owner.Some? { isDead := owner.value in gone; }
      if !isDead { return false, None; }
      Drain(Inbox);
      Drain(Outbox);
      ref := owner;
      owner := None;
      owner := Some(current);
      dead := false;
      inbox, outbox := inbox.(processed := 0), outbox.(processed := 0);
      ok := true;
    }
  }

  /** The reaper's section in closed form. */
  lemma ReapIs(x: Agent, t: Tid, a: AgentId, rest: seq<AgentId>)
    requires x.lock.None?
    ensures ReapSection(x, t, SAcquire, a, rest) ==
      DrainedOut(DrainedOut(x.(dead := true), Inbox), Outbox).(owner := None)
  {
    var x1 := x.(dead := true, lock := Some(t));
    ReapDrains(x1, t, Inbox, a, rest);
    ReapDrains(DrainedOut(x1, Inbox), t, Outbox, a, rest);
    DrainIgnoresLock(x.(dead := true), Inbox, Some(t));
    DrainIgnoresLock(DrainedOut(x.(dead := true), Inbox), Outbox, Some(t));
    DrainKeepsLock(DrainedOut(x.(dead := true), Inbox), Outbox);
    DrainKeepsLock(x.(dead := true), Inbox);
  }

  lemma RecycleIs(x: Agent, t: Tid, a: AgentId, gone: set<Tid>)
    requires x.lock.None?
    ensures RecycleSection(x, t, GAcquire, x.name, a, gone) ==
      (if !Recyclable(x, gone) then x else
       var y := DrainedOut(DrainedOut(x, Inbox), Outbox);
       y.(owner := Some(t), dead := false, inbox := y.inbox.(processed := 0), outbox := y.outbox.(processed := 0)))
  {
    var n, x1 := x.name, x.(lock := Some(t));
    assert RecycleSection(x, t, GAcquire, n, a, gone) == RecycleSection(x1, t, GHave, n, a, gone);
    if Recyclable(x, gone) {
      RecycleDrains(x1, t, Inbox, n, a, gone);
      RecycleDrains(DrainedOut(x1, Inbox), t, Outbox, n, a, gone);
      DrainIgnoresLock(x, Inbox, Some(t));
      DrainIgnoresLock(DrainedOut(x, Inbox), Outbox, Some(t));
      DrainKeepsLock(DrainedOut(x, Inbox), Outbox);
      DrainKeepsLock(x, Inbox);
      RecycleEnd(DrainedOut(DrainedOut(x1, Inbox), Outbox), t, n, a, gone);
    } else {
      assert RecycleSection(x1, t, GHave, n, a, gone) == RecycleSection(x1, t, GRefuse, n, a, gone);
    }
  }

  lemma RecycleEnd(y: Agent, t: Tid, n: string, a: AgentId, gone: set<Tid>)
    ensures RecycleSection(y, t, GPut, n, a, gone) == y.(owner := Some(t), dead := false, lock := None,
      inbox := y.inbox.(processed := 0), outbox := y.outbox.(processed := 0))
  {
    var z := y.(owner := Some(t));
    assert RecycleSection(y, t, GPut, n, a, gone) == RecycleSection(y.(owner := None), t, GOwn, n, a, gone);
    assert RecycleSection(y.(owner := None), t, GOwn, n, a, gone) == RecycleSection(z, t, GRevive, n, a, gone);
    var w := RecycleEffect(z, t, GRevive, n, a, gone).0;
    assert RecycleSection(z, t, GRevive, n, a, gone) == RecycleSection(w, t, GRelease, n, a, gone);
  }

  lemma {:induction false} DrainIgnoresLock(x: Agent, k: Kind, l: Option<Tid>)
    ensures DrainedOut(x.(lock := l), k) == DrainedOut(x, k).(lock := l)
    decreases |Box(x, k).messages|
  {
    if Box(x, k).messages != [] { DrainIgnoresLock(DrainTurn(x, k), k, l); }
  }

  lemma DrainKeepsLock(x: Agent, k: Kind)
    ensures DrainedOut(x, k).lock == x.lock
  {
    DrainedOutIs(x, k);
  }

  // ----- unload ---------------------------------------------------------

  /** What the walk of agentfs_exit does to an entry before it frees it. */
  function UnloadedEntry(x: Agent): Agent {
    if x.dead then x else DrainedOut(DrainedOut(x, Inbox), Outbox).(dead := true)
  }

  /** No queued message is lost with a freed entry: of a dead one both queues are empty already, and of a live one
      every queued message has been drained. */
  lemma UnloadLosesNoMessage(acts: seq<Act>, a: AgentId)
    requires Feasible(INITIAL, acts) && Run(INITIAL, acts).unloading && a in Run(INITIAL, acts).agents
    ensures var x := Run(INITIAL, acts).agents[a];
      var y := UnloadedEntry(x);
      && BothEmpty(y) && y.dead
      && Gist(y.inbox.removed) == Gist(x.inbox.removed) + x.inbox.messages
      && Gist(y.outbox.removed) == Gist(x.outbox.removed) + x.outbox.messages
  {
    var s := Run(INITIAL, acts);
    AgentfsTheorems.EveryInterleavingIsGood(acts);
    var x := s.agents[a];
    DrainedOutIs(x, Inbox);
    DrainedOutIs(DrainedOut(x, Inbox), Outbox);
  }
}
