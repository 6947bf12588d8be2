/** ipc_connect's exchange over the inherited broker channel, by any number of processes and threads.
    A per-process flag serialises threads; a POSIX record lock, owned by processes, serialises processes.
    Whether each of the two is used is a parameter, so that both can be shown to be needed. */
module Exchange {
  import opened Options

  type Tid = nat
  type Pid = nat

  datatype Locking = Locking(flag: bool, record: bool)

  /** What ipc_connect returns: the descriptor minted for request `id`, or an error. */
  datatype Result = Fd(id: nat, target: string) | Failed

  /** The points of ipc_connect. From `Receive` on, `id` is the request this call has sent. */
  datatype Stage =
    | Idle
    | TakeFlag(target: string)
    | TakeRecord(target: string)
    | Send(target: string)
    | Receive(target: string, id: nat)
    | DropRecord(target: string, id: nat, result: Result)
    | DropFlag(target: string, id: nat, result: Result)

  datatype Request = Request(id: nat, target: string)

  /** What agentd sends back for one request. */
  datatype Reply = Issued(id: nat, target: string) | Denied(id: nat)

  /** A finished call: the request it sent, and what it returned. */
  datatype Call = Call(target: string, id: nat, result: Result)

  datatype State = State(
    home: map<Tid, Pid>, at: map<Tid, Stage>,
    flags: set<Pid>, record: Option<Pid>,
    requests: seq<Request>, replies: seq<Reply>,
    nextId: nat, calls: seq<Call>)

  const INITIAL := State(map[0 := 0], map[], {}, None, [], [], 0, [])

  function At(s: State, t: Tid): Stage { if t in s.at then s.at[t] else Idle }

  function Go(s: State, t: Tid, g: Stage): State { s.(at := s.at[t := g]) }

  /** fcntl(F_UNLCK) by any thread drops the lock of its whole process. */
  function Unlocked(record: Option<Pid>, p: Pid): Option<Pid> { if record == Some(p) then None else record }

  datatype Answer = Issue | Deny | Silence

  /** `ok` is whether the system call of that point succeeds. */
  datatype Step =
    | Connect(t: Tid, target: string)
    | Advance(t: Tid, ok: bool)
    | Clone(t: Tid, u: Tid)
    | Fork(t: Tid, u: Tid, p: Pid)
    | Serve(answer: Answer)
    | Die(p: Pid)

  function AdvanceThread(s: State, c: Locking, t: Tid, ok: bool): State
    requires t in s.home
  {
    var p := s.home[t];
    match At(s, t)
    case Idle => s
    case TakeFlag(target) => Go(if c.flag then s.(flags := s.flags + {p}) else s, t, TakeRecord(target))
    case TakeRecord(target) =>
      if !ok then Go(if c.flag then s.(flags := s.flags - {p}) else s, t, Idle)
      else Go(if c.record then s.(record := Some(p)) else s, t, Send(target))
    case Send(target) =>
      if !ok then Go(s.(nextId := s.nextId + 1), t, DropRecord(target, s.nextId, Failed))
      else
        Go(s.(requests := s.requests + [Request(s.nextId, target)], nextId := s.nextId + 1),
           t, Receive(target, s.nextId))
    case Receive(target, id) =>
      if !ok then Go(s, t, DropRecord(target, id, Failed))
      else if s.replies == [] then s
      else
        var result := if s.replies[0].Issued? then Fd(s.replies[0].id, s.replies[0].target) else Failed;
        Go(s.(replies := s.replies[1..]), t, DropRecord(target, id, result))
    case DropRecord(target, id, result) =>
      Go(if c.record then s.(record := Unlocked(s.record, p)) else s, t, DropFlag(target, id, result))
    case DropFlag(target, id, result) =>
      Go((if c.flag then s.(flags := s.flags - {p}) else s).(calls := s.calls + [Call.Call(target, id, result)]),
         t, Idle)
  }

  /** A fork copies the flag, since it is memory; it does not copy record locks. */
  function Forked(s: State, t: Tid, u: Tid, p: Pid): State
    requires t in s.home
  {
    s.(home := s.home[u := p], flags := if s.home[t] in s.flags then s.flags + {p} else s.flags)
  }

  /** agentd takes one request and answers it at most once; it is one thread, so this is one step. */
  function Served(s: State, a: Answer): State {
    if s.requests == [] then s
    else
      var q, s' := s.requests[0], s.(requests := s.requests[1..]);
      match a
      case Issue => s'.(replies := s'.replies + [Issued(q.id, q.target)])
      case Deny => s'.(replies := s'.replies + [Denied(q.id)])
      case Silence => s'
  }

  function Dead(s: State, p: Pid): State {
    var rest := set t | t in s.home && s.home[t] != p;
    s.(home := map t | t in rest :: s.home[t], at := map t | t in s.at && t in rest :: s.at[t],
       flags := s.flags - {p}, record := Unlocked(s.record, p))
  }

  function Next(s: State, c: Locking, e: Step): State
    requires (e.Advance? || e.Fork? || e.Clone?) ==> e.t in s.home
  {
    match e
    case Connect(t, target) => Go(s, t, TakeFlag(target))
    case Advance(t, ok) => AdvanceThread(s, c, t, ok)
    case Clone(t, u) => s.(home := s.home[u := s.home[t]])
    case Fork(t, u, p) => Forked(s, t, u, p)
    case Serve(a) => Served(s, a)
    case Die(p) => Dead(s, p)
  }

  /** What may happen: spinning on a set flag, waiting on a record lock of another process and reading
      an empty channel are steps that wait; new threads and processes are new. */
  ghost predicate Legal(s: State, c: Locking, e: Step) {
    match e
    case Connect(t, _) => t in s.home && At(s, t) == Idle
    case Advance(t, ok) => t in s.home &&
      (match At(s, t)
       case Idle => false
       case TakeFlag(_) => c.flag ==> s.home[t] !in s.flags
       case TakeRecord(_) => c.record && ok ==> s.record == None || s.record == Some(s.home[t])
       case Receive(_, _) => ok ==> s.replies != []
       case _ => true)
    case Clone(t, u) => t in s.home && At(s, t) == Idle && u !in s.home && u !in s.at
    case Fork(t, u, p) => t in s.home && At(s, t) == Idle && u !in s.home && u !in s.at &&
      p !in s.flags && s.record != Some(p) && forall v :: v in s.home ==> s.home[v] != p
    case Serve(_) => s.requests != []
    case Die(p) => true
  }

  /** What may go wrong while a request is outstanding: its process dies, or its recvmsg fails. */
  datatype Faults = Faults(deaths: bool, failedReceives: bool)

  const NO_FAULTS := Faults(false, false)

  /** The step has no fault but those admitted. */
  ghost predicate Orderly(s: State, e: Step, f: Faults) {
    && (e.Die? && !f.deaths ==> forall t :: t in s.home && s.home[t] == e.p ==> !At(s, t).Receive?)
    && (e.Advance? && !e.ok && !f.failedReceives ==> !At(s, e.t).Receive?)
  }

  ghost predicate Feasible(s: State, c: Locking, steps: seq<Step>)
    decreases |steps|
  {
    steps == [] || (Legal(s, c, steps[0]) && Feasible(Next(s, c, steps[0]), c, steps[1..]))
  }

  ghost function Run(s: State, c: Locking, steps: seq<Step>): State
    requires Feasible(s, c, steps)
    decreases |steps|
  {
    if steps == [] then s else Run(Next(s, c, steps[0]), c, steps[1..])
  }

  ghost predicate OrderlyRun(s: State, c: Locking, steps: seq<Step>, f: Faults)
    requires Feasible(s, c, steps)
    decreases |steps|
  {
    steps == [] || (Orderly(s, steps[0], f) && OrderlyRun(Next(s, c, steps[0]), c, steps[1..], f))
  }

  // ----- safety ---------------------------------------------------------

  /** A call that returned a descriptor returned the one minted for its own request. */
  predicate Own(c: Call) { c.result.Fd? ==> c.result.id == c.id && c.result.target == c.target }

  predicate Safe(s: State) {
    && |s.requests| + |s.replies| <= 1
    && forall i :: 0 <= i < |s.calls| ==> Own(s.calls[i])
  }

  predicate Flagged(g: Stage) { !g.Idle? && !g.TakeFlag? }

  predicate Exclusive(g: Stage) { g.Send? || g.Receive? || g.DropRecord? }

  ghost predicate Known(s: State) { forall t :: t in s.at ==> t in s.home }

  /** A thread past the flag holds it, alone in its process. */
  ghost predicate FlagsHeld(s: State) {
    && (forall t :: t in s.home && Flagged(At(s, t)) ==> s.home[t] in s.flags)
    && (forall t, u :: t in s.home && u in s.home && s.home[t] == s.home[u] && Flagged(At(s, t)) && Flagged(At(s, u))
          ==> t == u)
  }

  /** A thread past the record lock holds it for its process, so it is alone in the whole system. */
  ghost predicate RecordHeld(s: State) {
    forall t :: t in s.home && Exclusive(At(s, t)) ==> s.record == Some(s.home[t])
  }

  predicate Awaits(g: Stage, r: Reply) {
    g.Receive? && g.id == r.id && (r.Issued? ==> g.target == r.target)
  }

  /** Whatever is on the channel belongs to the thread waiting in Receive. */
  ghost predicate Answered(s: State) {
    && |s.requests| + |s.replies| <= 1
    && (s.requests != [] ==> exists t :: t in s.home && At(s, t) == Receive(s.requests[0].target, s.requests[0].id))
    && (s.replies != [] ==> exists t :: t in s.home && Awaits(At(s, t), s.replies[0]))
  }

  predicate StageOwn(g: Stage) {
    g.DropRecord? || g.DropFlag? ==> Own(Call.Call(g.target, g.id, g.result))
  }

  ghost predicate Inv(s: State) {
    && Known(s) && FlagsHeld(s) && RecordHeld(s) && Answered(s)
    && (forall t :: t in s.home ==> StageOwn(At(s, t)))
    && (forall i :: 0 <= i < |s.calls| ==> Own(s.calls[i]))
  }

  lemma AloneInside(s: State, t: Tid, u: Tid)
    requires Inv(s) && t in s.home && u in s.home && Exclusive(At(s, t)) && Exclusive(At(s, u))
    ensures t == u
  {
  }

  const BOTH := Locking(true, true)

  lemma AdvanceFlags(s: State, t: Tid, ok: bool)
    requires FlagsHeld(s) && Legal(s, BOTH, Advance(t, ok))
    ensures FlagsHeld(AdvanceThread(s, BOTH, t, ok))
  {
    var s' := AdvanceThread(s, BOTH, t, ok);
    assert s'.home == s.home && forall u :: u != t ==> At(s', u) == At(s, u);
    forall u | u in s'.home && Flagged(At(s', u)) ensures s'.home[u] in s'.flags { }
  }

  lemma AdvanceRecord(s: State, t: Tid, ok: bool)
    requires Inv(s) && Legal(s, BOTH, Advance(t, ok)) && Orderly(s, Advance(t, ok), NO_FAULTS)
    ensures RecordHeld(AdvanceThread(s, BOTH, t, ok))
  {
    var s' := AdvanceThread(s, BOTH, t, ok);
    assert s'.home == s.home && forall u :: u != t ==> At(s', u) == At(s, u);
    forall u | u in s.home && u != t && Exclusive(At(s', u)) ensures s'.record == Some(s.home[u]) {
      assert s.record == Some(s.home[u]);
    }
  }

  lemma AdvanceAnswered(s: State, t: Tid, ok: bool)
    requires Inv(s) && Legal(s, BOTH, Advance(t, ok)) && Orderly(s, Advance(t, ok), NO_FAULTS)
    ensures Answered(AdvanceThread(s, BOTH, t, ok))
  {
    var s' := AdvanceThread(s, BOTH, t, ok);
    assert forall u :: u != t ==> At(s', u) == At(s, u);
    if Exclusive(At(s, t)) {
      forall u | u in s.home && At(s, u).Receive? ensures u == t { AloneInside(s, t, u); }
      if At(s, t).Send? && ok { assert At(s', t) == Receive(At(s, t).target, s.nextId); }
    }
  }

  /** The reply a thread reads is the one it awaits. */
  lemma AdvanceOwn(s: State, t: Tid, ok: bool)
    requires Inv(s) && Legal(s, BOTH, Advance(t, ok)) && Orderly(s, Advance(t, ok), NO_FAULTS)
    ensures var s' := AdvanceThread(s, BOTH, t, ok);
      && (forall u :: u in s'.home ==> StageOwn(At(s', u)))
      && (forall i :: 0 <= i < |s'.calls| ==> Own(s'.calls[i]))
  {
    var s' := AdvanceThread(s, BOTH, t, ok);
    assert forall u :: u != t ==> At(s', u) == At(s, u);
    assert StageOwn(At(s, t));
    if At(s, t).Receive? {
      forall u | u in s.home && At(s, u).Receive? ensures u == t { AloneInside(s, t, u); }
    }
  }

  lemma AdvanceKeeps(s: State, t: Tid, ok: bool)
    requires Inv(s) && Legal(s, BOTH, Advance(t, ok)) && Orderly(s, Advance(t, ok), NO_FAULTS)
    ensures Inv(AdvanceThread(s, BOTH, t, ok))
  {
    hide FlagsHeld, RecordHeld, Answered, Own, StageOwn;
    AdvanceFlags(s, t, ok);
    AdvanceRecord(s, t, ok);
    AdvanceAnswered(s, t, ok);
    AdvanceOwn(s, t, ok);
  }

  /** Steps that leave the threads where they stand and the channel as it is. */
  lemma StandingKeeps(s: State, s': State)
    requires Inv(s) && Known(s')
    requires forall t :: t in s.home && Flagged(At(s, t)) && t in s'.home ==> s'.home[t] in s'.flags
    requires forall t :: t in s'.home ==>
      (At(s', t) == At(s, t) && t in s.home && s'.home[t] == s.home[t]) || !Flagged(At(s', t))
    requires forall t :: t in s.home && Exclusive(At(s, t)) && t in s'.home ==> s'.record == s.record
    requires forall t :: t in s.home && At(s, t).Receive? ==> t in s'.home && At(s', t) == At(s, t)
    requires s'.requests == s.requests && s'.replies == s.replies && s'.calls == s.calls
    ensures Inv(s')
  {
  }

  lemma ServeKeeps(s: State, a: Answer)
    requires Inv(s) && s.requests != []
    ensures Inv(Served(s, a))
  {
    var s' := Served(s, a);
    assert forall u :: At(s', u) == At(s, u);
    var t :| t in s.home && At(s, t) == Receive(s.requests[0].target, s.requests[0].id);
    assert s'.replies != [] ==> Awaits(At(s', t), s'.replies[0]);
  }

  lemma StepKeeps(s: State, e: Step)
    requires Inv(s) && Legal(s, BOTH, e) && Orderly(s, e, NO_FAULTS)
    ensures Inv(Next(s, BOTH, e))
  {
    match e
    case Advance(t, ok) => hide Inv; AdvanceKeeps(s, t, ok);
    case Serve(a) => hide Inv; ServeKeeps(s, a);
    case _ => MoveKeeps(s, e);
  }

  lemma MoveKeeps(s: State, e: Step)
    requires Inv(s) && Legal(s, BOTH, e) && Orderly(s, e, NO_FAULTS) && !e.Advance? && !e.Serve?
    ensures Inv(Next(s, BOTH, e))
  {
    hide Answered, StageOwn, Own;
    StandingKeeps(s, Next(s, BOTH, e));
  }

  lemma {:induction false} RunKeeps(s: State, steps: seq<Step>)
    requires Inv(s) && Feasible(s, BOTH, steps) && OrderlyRun(s, BOTH, steps, NO_FAULTS)
    ensures Inv(Run(s, BOTH, steps))
    decreases |steps|
  {
    hide Inv, Orderly;
    if steps != [] {
      StepKeeps(s, steps[0]);
      RunKeeps(Next(s, BOTH, steps[0]), steps[1..]);
    }
  }

  /** With both locks and no fault, no interleaving has two requests outstanding or hands a caller another's
      descriptor. */
  lemma EveryCallGetsItsOwn(steps: seq<Step>)
    requires Feasible(INITIAL, BOTH, steps) && OrderlyRun(INITIAL, BOTH, steps, NO_FAULTS)
    ensures Safe(Run(INITIAL, BOTH, steps))
  {
    RunKeeps(INITIAL, steps);
  }

  // ----- both locks are needed, and so is living to read the reply ------

  lemma Cons(s: State, c: Locking, e: Step, rest: seq<Step>)
    requires Legal(s, c, e) && Feasible(Next(s, c, e), c, rest)
    ensures Feasible(s, c, [e] + rest) && Run(s, c, [e] + rest) == Run(Next(s, c, e), c, rest)
  {
    assert ([e] + rest)[1..] == rest;
  }

  /** Both calls have sent; agentd answers the first request and the second caller reads that answer. */
  lemma SecondReadsFirst(c: Locking, s: State) returns (steps: seq<Step>)
    requires s.requests == [Request(0, "a"), Request(1, "b")] && s.replies == []
    requires 1 in s.home && At(s, 1) == Receive("b", 1)
    ensures Feasible(s, c, steps) && !Safe(Run(s, c, steps))
    ensures Run(s, c, steps).calls == s.calls + [Call.Call("b", 1, Fd(0, "a"))] && Faultless(steps)
  {
    var s1 := Next(s, c, Serve(Issue));
    var s2 := Next(s1, c, Advance(1, true));
    var s3 := Next(s2, c, Advance(1, true));
    var s4 := Next(s3, c, Advance(1, true));
    assert At(s2, 1) == DropRecord("b", 1, Fd(0, "a"));
    assert s4.calls == s.calls + [Call.Call("b", 1, Fd(0, "a"))] && !Own(s4.calls[|s.calls|]);
    Cons(s3, c, Advance(1, true), []);
    Cons(s2, c, Advance(1, true), [Advance(1, true)]);
    Cons(s1, c, Advance(1, true), [Advance(1, true)] + [Advance(1, true)]);
    steps := [Serve(Issue)] + ([Advance(1, true)] + ([Advance(1, true)] + [Advance(1, true)]));
    Cons(s, c, Serve(Issue), [Advance(1, true)] + ([Advance(1, true)] + [Advance(1, true)]));
  }

  /** Two idle threads, 0 and 1, on a quiet channel. */
  predicate TwoIdle(s: State) {
    && 0 in s.home && 1 in s.home && At(s, 0) == Idle && At(s, 1) == Idle && s.flags == {} && s.record == None
    && s.requests == [] && s.replies == [] && s.nextId == 0 && s.calls == []
  }

  /** With a lock missing, both get past the locks before either has an answer. */
  lemma BothSend(c: Locking, s: State) returns (steps: seq<Step>)
    requires TwoIdle(s) && (if s.home[0] == s.home[1] then !c.flag else !c.record)
    ensures Feasible(s, c, steps) && !Safe(Run(s, c, steps)) && Faultless(steps)
    ensures Run(s, c, steps).calls == [Call.Call("b", 1, Fd(0, "a"))]
  {
    var s1 := Next(s, c, Connect(0, "a"));
    var s2 := Next(s1, c, Connect(1, "b"));
    var s3 := Next(s2, c, Advance(0, true));
    var s4 := Next(s3, c, Advance(1, true));
    assert At(s4, 0) == TakeRecord("a") && At(s4, 1) == TakeRecord("b");
    steps := BothSendLocked(c, s4);
    Cons(s3, c, Advance(1, true), steps);
    Cons(s2, c, Advance(0, true), [Advance(1, true)] + steps);
    Cons(s1, c, Connect(1, "b"), [Advance(0, true)] + ([Advance(1, true)] + steps));
    Cons(s, c, Connect(0, "a"), [Connect(1, "b")] + ([Advance(0, true)] + ([Advance(1, true)] + steps)));
    steps := [Connect(0, "a")] + ([Connect(1, "b")] + ([Advance(0, true)] + ([Advance(1, true)] + steps)));
  }

  lemma BothSendLocked(c: Locking, s: State) returns (steps: seq<Step>)
    requires 0 in s.home && 1 in s.home && At(s, 0) == TakeRecord("a") && At(s, 1) == TakeRecord("b")
    requires s.record == None && s.requests == [] && s.replies == [] && s.nextId == 0 && s.calls == []
    requires s.home[0] != s.home[1] ==> !c.record
    ensures Feasible(s, c, steps) && !Safe(Run(s, c, steps)) && Faultless(steps)
    ensures Run(s, c, steps).calls == [Call.Call("b", 1, Fd(0, "a"))]
  {
    var s5 := Next(s, c, Advance(0, true));
    var s6 := Next(s5, c, Advance(1, true));
    var s7 := Next(s6, c, Advance(0, true));
    var s8 := Next(s7, c, Advance(1, true));
    assert s8.requests == [Request(0, "a"), Request(1, "b")];
    steps := SecondReadsFirst(c, s8);
    Cons(s7, c, Advance(1, true), steps);
    Cons(s6, c, Advance(0, true), [Advance(1, true)] + steps);
    Cons(s5, c, Advance(1, true), [Advance(0, true)] + ([Advance(1, true)] + steps));
    Cons(s, c, Advance(0, true), [Advance(1, true)] + ([Advance(0, true)] + ([Advance(1, true)] + steps)));
    steps := [Advance(0, true)] + ([Advance(1, true)] + ([Advance(0, true)] + ([Advance(1, true)] + steps)));
  }

  /** Nobody dies and no system call fails. */
  ghost predicate Faultless(steps: seq<Step>) {
    forall i :: 0 <= i < |steps| ==> !steps[i].Die? && (steps[i].Advance? ==> steps[i].ok)
  }

  lemma {:induction false} FaultlessIsOrderly(s: State, c: Locking, steps: seq<Step>, f: Faults)
    requires Feasible(s, c, steps) && Faultless(steps)
    ensures OrderlyRun(s, c, steps, f)
    decreases |steps|
  {
    if steps != [] {
      FaultlessIsOrderly(Next(s, c, steps[0]), c, steps[1..], f);
    }
  }

  ghost predicate SafeRun(c: Locking, f: Faults, steps: seq<Step>) {
    Feasible(INITIAL, c, steps) && OrderlyRun(INITIAL, c, steps, f) ==> Safe(Run(INITIAL, c, steps))
  }

  /** A missing lock lets a caller walk away with the descriptor minted for another's request. */
  lemma MissingLockMixesUp(c: Locking, f: Faults) returns (steps: seq<Step>)
    requires !c.flag || !c.record
    ensures Feasible(INITIAL, c, steps) && OrderlyRun(INITIAL, c, steps, f)
    ensures Run(INITIAL, c, steps).calls == [Call.Call("b", 1, Fd(0, "a"))] && !Safe(Run(INITIAL, c, steps))
  {
    var e := if !c.flag then Clone(0, 1) else Fork(0, 1, 1);
    steps := BothSend(c, Next(INITIAL, c, e));
    Cons(INITIAL, c, e, steps);
    steps := [e] + steps;
    FaultlessIsOrderly(INITIAL, c, steps, f);
  }

  lemma ConsOrderly(s: State, c: Locking, e: Step, rest: seq<Step>, f: Faults)
    requires Legal(s, c, e) && Orderly(s, e, f) && Feasible(Next(s, c, e), c, rest)
    requires OrderlyRun(Next(s, c, e), c, rest, f)
    ensures Feasible(s, c, [e] + rest) && OrderlyRun(s, c, [e] + rest, f)
    ensures Run(s, c, [e] + rest) == Run(Next(s, c, e), c, rest)
  {
    assert ([e] + rest)[1..] == rest;
  }

  /** Thread 0 connects to "a" and has sent its request; thread 1, of another process, is idle. */
  lemma FirstSends(last: Step, f: Faults, tail: seq<Step>, s: State, s': State) returns (steps: seq<Step>)
    requires s == FirstSent() && Legal(s, BOTH, last) && Orderly(s, last, f) && s' == Next(s, BOTH, last)
    requires Feasible(s', BOTH, tail) && OrderlyRun(s', BOTH, tail, f)
    ensures Feasible(INITIAL, BOTH, steps) && OrderlyRun(INITIAL, BOTH, steps, f)
    ensures Run(INITIAL, BOTH, steps) == Run(s', BOTH, tail)
  {
    hide OrderlyRun, Feasible, Run;
    var s1 := Next(INITIAL, BOTH, Fork(0, 1, 1));
    var s2 := Next(s1, BOTH, Connect(0, "a"));
    var s3 := Next(s2, BOTH, Advance(0, true));
    var s4 := Next(s3, BOTH, Advance(0, true));
    assert Next(s4, BOTH, Advance(0, true)) == s;
    steps := [last] + tail;
    ConsOrderly(s, BOTH, last, tail, f);
    ConsOrderly(s4, BOTH, Advance(0, true), steps, f);
    steps := [Advance(0, true)] + steps;
    ConsOrderly(s3, BOTH, Advance(0, true), steps, f);
    steps := [Advance(0, true)] + steps;
    ConsOrderly(s2, BOTH, Advance(0, true), steps, f);
    steps := [Advance(0, true)] + steps;
    ConsOrderly(s1, BOTH, Connect(0, "a"), steps, f);
    steps := [Connect(0, "a")] + steps;
    ConsOrderly(INITIAL, BOTH, Fork(0, 1, 1), steps, f);
    steps := [Fork(0, 1, 1)] + steps;
  }

  function FirstSent(): State {
    State(map[0 := 0, 1 := 1], map[0 := Receive("a", 0)], {0}, Some(0), [Request(0, "a")], [], 1, [])
  }

  /** A process killed between its request and the reply leaves the reply to the next caller:
      the kernel drops the dead process's record lock, not its request. */
  lemma DeathBeforeReplyMixesUp(f: Faults) returns (steps: seq<Step>)
    requires f.deaths
    ensures Feasible(INITIAL, BOTH, steps) && OrderlyRun(INITIAL, BOTH, steps, f) && !Safe(Run(INITIAL, BOTH, steps))
  {
    var s := FirstSent();
    var s' := Next(s, BOTH, Die(0));
    assert 1 in s'.home && At(s', 1) == Idle && s'.record == None && s'.flags == {};
    var tail := OutlivedRequest(s', f);
    steps := FirstSends(Die(0), f, tail, s, s');
  }

  /** A recvmsg that fails does the same: the call unlocks and returns an error, its request still on the channel. */
  lemma FailedReceiveMixesUp(f: Faults) returns (steps: seq<Step>)
    requires f.failedReceives
    ensures Feasible(INITIAL, BOTH, steps) && OrderlyRun(INITIAL, BOTH, steps, f) && !Safe(Run(INITIAL, BOTH, steps))
  {
    var s := FirstSent();
    var s1 := Next(s, BOTH, Advance(0, false));
    var s2 := Next(s1, BOTH, Advance(0, true));
    var s3 := Next(s2, BOTH, Advance(0, true));
    assert At(s1, 0) == DropRecord("a", 0, Failed) && At(s2, 0) == DropFlag("a", 0, Failed);
    assert 1 in s3.home && At(s3, 1) == Idle && s3.record == None && s3.flags == {};
    var tail := OutlivedRequest(s3, f);
    ConsOrderly(s2, BOTH, Advance(0, true), tail, f);
    ConsOrderly(s1, BOTH, Advance(0, true), [Advance(0, true)] + tail, f);
    steps := FirstSends(Advance(0, false), f, [Advance(0, true)] + ([Advance(0, true)] + tail), s, s1);
  }

  lemma OutlivedRequest(s: State, f: Faults) returns (steps: seq<Step>)
    requires 1 in s.home && At(s, 1) == Idle && s.record == None && s.flags == {}
    requires s.requests == [Request(0, "a")] && s.replies == [] && s.nextId == 1
    ensures Feasible(s, BOTH, steps) && OrderlyRun(s, BOTH, steps, f) && !Safe(Run(s, BOTH, steps))
  {
    var s1 := Next(s, BOTH, Connect(1, "b"));
    var s2 := Next(s1, BOTH, Advance(1, true));
    var s3 := Next(s2, BOTH, Advance(1, true));
    var s4 := Next(s3, BOTH, Advance(1, true));
    assert s4.requests == [Request(0, "a"), Request(1, "b")];
    steps := SecondReadsFirst(BOTH, s4);
    Cons(s3, BOTH, Advance(1, true), steps);
    Cons(s2, BOTH, Advance(1, true), [Advance(1, true)] + steps);
    Cons(s1, BOTH, Advance(1, true), [Advance(1, true)] + ([Advance(1, true)] + steps));
    Cons(s, BOTH, Connect(1, "b"), [Advance(1, true)] + ([Advance(1, true)] + ([Advance(1, true)] + steps)));
    steps := [Connect(1, "b")] + ([Advance(1, true)] + ([Advance(1, true)] + ([Advance(1, true)] + steps)));
    FaultlessIsOrderly(s, BOTH, steps, f);
  }

  /** The exchange is safe in every run if and only if both locks are used, nobody dies waiting for a reply, and
      no wait for a reply fails. */
  lemma SafeExactlyWhen(c: Locking, f: Faults)
    ensures (forall steps :: SafeRun(c, f, steps)) <==> c.flag && c.record && !f.deaths && !f.failedReceives
  {
    if !c.flag || !c.record {
      var steps := MissingLockMixesUp(c, f);
      assert !SafeRun(c, f, steps);
    } else if f.deaths {
      var steps := DeathBeforeReplyMixesUp(f);
      assert !SafeRun(c, f, steps);
    } else if f.failedReceives {
      var steps := FailedReceiveMixesUp(f);
      assert !SafeRun(c, f, steps);
    } else {
      forall steps: seq<Step> ensures SafeRun(c, f, steps) {
        if Feasible(INITIAL, c, steps) && OrderlyRun(INITIAL, c, steps, f) { EveryCallGetsItsOwn(steps); }
      }
    }
  }

  // ----- an undisturbed call --------------------------------------------

  ghost predicate Ready(s: State, t: Tid) {
    && t in s.home && At(s, t) == Idle && s.home[t] !in s.flags
    && (s.record == None || s.record == Some(s.home[t])) && s.requests == [] && s.replies == []
  }

  /** From a request that has been sent to the end of the call. */
  lemma AnsweredReturns(s: State, c: Locking, t: Tid, target: string, id: nat, a: Answer) returns (steps: seq<Step>)
    requires t in s.home && At(s, t) == Receive(target, id) && s.requests == [Request(id, target)] && s.replies == []
    requires !a.Silence?
    ensures Feasible(s, c, steps)
    ensures var s', p := Run(s, c, steps), s.home[t];
      && At(s', t) == Idle && s'.home == s.home && s'.requests == [] && s'.replies == [] && s'.nextId == s.nextId
      && s'.flags == (if c.flag then s.flags - {p} else s.flags)
      && s'.record == (if c.record then Unlocked(s.record, p) else s.record)
      && s'.calls == s.calls + [Call.Call(target, id, if a.Issue? then Fd(id, target) else Failed)]
  {
    var s1 := Next(s, c, Serve(a));
    var e := Advance(t, true);
    var s2 := Next(s1, c, e);
    var s3 := Next(s2, c, e);
    var s4 := Next(s3, c, e);
    assert Run(s4, c, []) == s4;
    steps := [e] + [];
    Cons(s3, c, e, []);
    Cons(s2, c, e, steps);
    steps := [e] + steps;
    Cons(s1, c, e, steps);
    steps := [e] + steps;
    Cons(s, c, Serve(a), steps);
    steps := [Serve(a)] + steps;
  }

  /** A call that finds both locks free and the channel empty, and whose system calls succeed, returns what agentd
      answers: the descriptor minted for its own request, or an error; and it leaves locks and channel free again. */
  lemma CallReturnsTheAnswer(s: State, c: Locking, t: Tid, target: string, a: Answer) returns (steps: seq<Step>)
    requires Ready(s, t) && !a.Silence?
    ensures Feasible(s, c, steps)
    ensures var s' := Run(s, c, steps);
      && Ready(s', t) && s'.home == s.home
      && s'.calls == s.calls + [Call.Call(target, s.nextId, if a.Issue? then Fd(s.nextId, target) else Failed)]
  {
    var e, first := Advance(t, true), Connect(t, target);
    var s1 := Next(s, c, first);
    var s2 := Next(s1, c, e);
    var s3 := Next(s2, c, e);
    var s4 := Next(s3, c, e);
    steps := AnsweredReturns(s4, c, t, target, s.nextId, a);
    Cons(s3, c, e, steps);
    steps := [e] + steps;
    Cons(s2, c, e, steps);
    steps := [e] + steps;
    Cons(s1, c, e, steps);
    steps := [e] + steps;
    Cons(s, c, first, steps);
    steps := [first] + steps;
  }
}
