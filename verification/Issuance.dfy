/** broker_handle_event: one request on one agent's broker channel, with every descriptor accounted for. */
module Issuance {
  import opened Options
  import opened Text
  import opened Broker
  import opened Policy

  const KIND: string := "mailbox.send:"

  /** What the handler reads of a slot. `alive` is the answer of agent_alive at that moment. */
  datatype Peer = Peer(used: bool, name: string, pid: nat, inboxFd: int, brokerFd: int, alive: bool)

  /** A message agentd sent, with the descriptor attached to it; `ok` is whether sendmsg succeeded. */
  datatype Sent =
    | Delivery(inbox: int, meta: string, fd: int, ok: bool)
    | Answer(chan: int, bytes: string, attached: Option<int>, ok: bool)

  /** `policies` holds the policy file of each agent that has one. `faults` counts closes of a descriptor that is not
      open. */
  datatype Daemon = Daemon(
    peers: seq<Peer>, policies: map<string, string>, open: set<int>, faults: nat, sent: seq<Sent>)

  datatype Arrival = Failed | Packet(text: string, inbound: seq<int>)

  /** Everything the handler asks of the system: the packet, a socket pair, whether each send succeeds, the error text,
      and an audit token. */
  datatype Env = Env(arrival: Arrival, pair: Option<(int, int)>, delivered: bool, error: string,
                     token: Option<string>, answered: bool, uid: nat)

  // ----- descriptors ----------------------------------------------------

  function Close(d: Daemon, fd: int): Daemon {
    if fd in d.open then d.(open := d.open - {fd}) else d.(faults := d.faults + 1)
  }

  function CloseAll(d: Daemon, fds: seq<int>): Daemon
    decreases fds
  {
    if fds == [] then d else CloseAll(Close(d, fds[0]), fds[1..])
  }

  function Opened(d: Daemon, fds: seq<int>): Daemon { d.(open := d.open + Range(fds)) }

  function Range(fds: seq<int>): set<int> { set fd | fd in fds }

  predicate Distinct(fds: seq<int>) { forall i, j :: 0 <= i < j < |fds| ==> fds[i] != fds[j] }

  /** The kernel hands out descriptors that are not open. */
  predicate New(d: Daemon, fds: seq<int>) { Distinct(fds) && forall i :: 0 <= i < |fds| ==> fds[i] !in d.open }

  // ----- the handler ----------------------------------------------------

  function Denial(d: Daemon, i: nat, cap: string, reason: string, ok: bool): Daemon
    requires i < |d.peers|
  {
    match FormatDenied(cap, reason)
    case None => d
    case Some(bytes) => d.(sent := d.sent + [Answer(d.peers[i].brokerFd, bytes, None, ok)])
  }

  function FindPeer(peers: seq<Peer>, name: string, from: nat): int
    requires from <= |peers|
    decreases |peers| - from
  {
    if from == |peers| then -1
    else if peers[from].used && peers[from].name == name then from
    else FindPeer(peers, name, from + 1)
  }

  predicate Listening(p: Peer) { p.pid > 0 && p.inboxFd >= 0 && p.alive }

  /** The metadata that goes with a delivered descriptor. */
  function Meta(name: string, pid: nat, uid: nat): string {
    "SENDER " + name + "\nPID " + Decimal(pid) + "\nUID " + Decimal(uid) + "\n\n"
  }

  /** issue_mailbox_channel and what follows it, once the policy has said yes. */
  function Issue(d: Daemon, i: nat, e: Env, cap: string, target: string): Daemon
    requires i < |d.peers|
  {
    var j := FindPeer(d.peers, target, 0);
    if j < 0 || j >= |d.peers| || !Listening(d.peers[j]) then Denial(d, i, cap, "no-listener", e.answered)
    else match e.pair
      case None => Denial(d, i, cap, e.error, e.answered)
      case Some((a, b)) =>
        var meta := Meta(d.peers[i].name, d.peers[i].pid, e.uid);
        var d1 := Opened(d, [a, b]).(sent := d.sent + [Delivery(d.peers[j].inboxFd, meta, b, e.delivered)]);
        var d2 := Close(d1, b);
        if !e.delivered then Denial(Close(d2, a), i, cap, e.error, e.answered)
        else if e.token.None? then Denial(Close(d2, a), i, cap, "entropy-failure", e.answered)
        else match FormatIssued(cap, e.token.value)
          case None => Close(d2, a)
          case Some(bytes) =>
            Close(d2.(sent := d2.sent + [Answer(d.peers[i].brokerFd, bytes, Some(a), e.answered)]), a)
  }

  /** The policy file found under the name in the requester's slot. */
  function PolicyOf(d: Daemon, i: nat): Option<string>
    requires i < |d.peers|
  {
    if d.peers[i].name in d.policies then Some(d.policies[d.peers[i].name]) else None
  }

  ghost function Decide(d: Daemon, i: nat, e: Env, text: string): Daemon
    requires i < |d.peers|
  {
    var f := Parse(text);
    if f.None? || !Complete(f.value) || f.value[Verb] != "request" then
      Denial(d, i, "?", "malformed-request", e.answered)
    else
      var cap := CString(f.value[Cap]);
      if !Allowed(PolicyOf(d, i), cap) then Denial(d, i, cap, "not-in-caps", e.answered)
      else if KIND <= cap then Issue(d, i, e, cap, cap[|KIND|..])
      else Denial(d, i, cap, "unknown-cap-kind", e.answered)
  }

  /** The descriptors attached to a packet are open as soon as it is received. */
  function Receive(d: Daemon, e: Env): Daemon {
    if e.arrival.Packet? then Opened(d, e.arrival.inbound) else d
  }

  function CloseChannel(d: Daemon, i: nat): Daemon
    requires i < |d.peers|
  {
    var d' := Close(d, d.peers[i].brokerFd);
    d'.(peers := d'.peers[i := d'.peers[i].(brokerFd := -1)])
  }

  lemma {:induction false} CloseAllKeeps(d: Daemon, fds: seq<int>)
    ensures CloseAll(d, fds).peers == d.peers && CloseAll(d, fds).sent == d.sent
    ensures CloseAll(d, fds).policies == d.policies
    decreases fds
  {
    if fds != [] { CloseAllKeeps(Close(d, fds[0]), fds[1..]); }
  }

  ghost function Handle(d: Daemon, i: nat, e: Env): Daemon
    requires i < |d.peers|
  {
    if e.arrival.Failed? || e.arrival.text == [] then CloseChannel(Receive(d, e), i)
    else
      CloseAllKeeps(Receive(d, e), e.arrival.inbound);
      Decide(CloseAll(Receive(d, e), e.arrival.inbound), i, e, e.arrival.text)
  }

  // ----- conservation ---------------------------------------------------

  lemma {:induction false} CloseAllCloses(d: Daemon, fds: seq<int>)
    requires Distinct(fds) && Range(fds) <= d.open
    ensures CloseAll(d, fds) == d.(open := d.open - Range(fds))
    decreases fds
  {
    if fds == [] {
    } else {
      assert fds[0] in Range(fds);
      var d' := Close(d, fds[0]);
      var tail := fds[1..];
      assert forall k :: 0 <= k < |tail| ==> tail[k] == fds[k + 1];
      assert Range(fds) == {fds[0]} + Range(tail);
      assert Range(tail) <= d'.open;
      CloseAllCloses(d', tail);
    }
  }

  /** What the kernel guarantees about the descriptors of one event. */
  predicate FreshEnv(d: Daemon, e: Env) {
    && (e.arrival.Packet? ==> New(d, e.arrival.inbound))
    && (e.pair.Some? ==> New(d, [e.pair.value.0, e.pair.value.1]))
  }

  lemma DenialFds(d: Daemon, i: nat, cap: string, reason: string, ok: bool)
    requires i < |d.peers|
    ensures var d' := Denial(d, i, cap, reason, ok); d'.open == d.open && d'.faults == d.faults && d'.peers == d.peers
  {
  }

  /** Each end of a minted pair is closed exactly once, on every path. */
  lemma IssueFds(d: Daemon, i: nat, e: Env, cap: string, target: string)
    requires i < |d.peers| && (e.pair.Some? ==> New(d, [e.pair.value.0, e.pair.value.1]))
    ensures var d' := Issue(d, i, e, cap, target); d'.open == d.open && d'.faults == d.faults && d'.peers == d.peers
  {
    hide Meta, FormatDenied, FormatIssued;
    if e.pair.Some? {
      var a, b := e.pair.value.0, e.pair.value.1;
      assert [a, b][0] == a && [a, b][1] == b;
      assert Range([a, b]) == {a, b};
    }
  }

  lemma DecideFds(d: Daemon, i: nat, e: Env, text: string)
    requires i < |d.peers| && (e.pair.Some? ==> New(d, [e.pair.value.0, e.pair.value.1]))
    ensures var d' := Decide(d, i, e, text); d'.open == d.open && d'.faults == d.faults && d'.peers == d.peers
  {
    hide Denial, Issue, New, Parse, Complete, CString, Allowed;
    forall cap, reason
      ensures var d' := Denial(d, i, cap, reason, e.answered);
        d'.open == d.open && d'.faults == d.faults && d'.peers == d.peers
    {
      DenialFds(d, i, cap, reason, e.answered);
    }
    forall cap, target
      ensures var d' := Issue(d, i, e, cap, target);
        d'.open == d.open && d'.faults == d.faults && d'.peers == d.peers
    {
      IssueFds(d, i, e, cap, target);
    }
  }

  /** The channel descriptors an event closes: its own, at end of file, on an error or on an empty packet. */
  function Hangup(d: Daemon, i: nat, e: Env): set<int>
    requires i < |d.peers|
  {
    if e.arrival.Failed? || e.arrival.text == [] then {d.peers[i].brokerFd} else {}
  }

  /** An event leaves exactly the descriptors it found, less a closed channel, and closes nothing twice:
      unless the packet is empty and carries descriptors, which are then never closed. */
  lemma ConservedExactly(d: Daemon, i: nat, e: Env)
    requires i < |d.peers| && d.peers[i].brokerFd in d.open && FreshEnv(d, e)
    ensures Handle(d, i, e).faults == d.faults
    ensures Handle(d, i, e).open == d.open - Hangup(d, i, e)
        <==> !(e.arrival.Packet? && e.arrival.text == [] && e.arrival.inbound != [])
  {
    hide Decide;
    if e.arrival.Packet? {
      var inbound := e.arrival.inbound;
      CloseAllKeeps(Receive(d, e), inbound);
      if e.arrival.text == [] {
        if inbound != [] { assert inbound[0] in Range(inbound) && inbound[0] in Handle(d, i, e).open; }
      } else {
        CloseAllCloses(Receive(d, e), inbound);
        assert CloseAll(Receive(d, e), inbound).open == d.open by { RangeNew(d, inbound); }
        DecideFds(CloseAll(Receive(d, e), inbound), i, e, e.arrival.text);
      }
    }
  }

  lemma RangeNew(d: Daemon, fds: seq<int>)
    requires New(d, fds)
    ensures d.open + Range(fds) - Range(fds) == d.open
  {
  }

  // ----- every issued descriptor was asked for and allowed --------------

  /** The policy file of the agent allows the capability. */
  ghost predicate AllowedTo(d: Daemon, agent: string, cap: string) {
    agent in d.policies && Allowed(Some(d.policies[agent]), cap)
  }

  lemma AllowedByOwnPolicy(d: Daemon, i: nat, cap: string)
    requires i < |d.peers|
    ensures Allowed(PolicyOf(d, i), cap) <==> AllowedTo(d, d.peers[i].name, cap)
  {
  }

  /** What must be true for `fd` to be handed to slot i with this event. */
  ghost predicate Rightful(d: Daemon, i: nat, e: Env, fd: int, other: int, inbox: int, bytes: string) {
    && i < |d.peers| && e.arrival.Packet? && e.pair == Some((fd, other)) && e.token.Some?
    && var f := Parse(e.arrival.text);
    && f.Some? && Complete(f.value) && f.value[Verb] == "request"
    && var cap := CString(f.value[Cap]);
    && KIND <= cap && AllowedTo(d, d.peers[i].name, cap) && FormatIssued(cap, e.token.value) == Some(bytes)
    && exists j: nat :: j < |d.peers| && d.peers[j].used && d.peers[j].name == cap[|KIND|..]
                        && Listening(d.peers[j]) && d.peers[j].inboxFd == inbox
  }

  /** The messages an event adds: nothing, one answer without a descriptor, a delivery, or a delivery
      followed by one answer. A descriptor goes to the requester only after the other end of its pair was
      delivered to the inbox of a live target with the requester's own slot in the metadata. */
  ghost predicate Proper(d: Daemon, i: nat, e: Env, added: seq<Sent>)
    requires i < |d.peers|
  {
    && |added| <= 2
    && (|added| == 2 ==> added[0].Delivery?)
    && (forall k :: 0 <= k < |added| && added[k].Answer? ==> k == |added| - 1 && added[k].chan == d.peers[i].brokerFd)
    && (forall k :: 0 <= k < |added| && added[k].Delivery? ==>
      added[k].meta == Meta(d.peers[i].name, d.peers[i].pid, e.uid))
    && (forall k :: 0 <= k < |added| && added[k].Answer? && added[k].attached.Some? ==>
          && |added| == 2 && added[0].ok
          && Rightful(d, i, e, added[k].attached.value, added[0].fd, added[0].inbox, added[k].bytes))
  }

  function Added(d: Daemon, d': Daemon): seq<Sent>
    requires |d.sent| <= |d'.sent|
  {
    d'.sent[|d.sent|..]
  }

  lemma {:induction false} FindPeerFinds(peers: seq<Peer>, name: string, from: nat)
    requires from <= |peers|
    ensures var j := FindPeer(peers, name, from);
      && -1 <= j < |peers| && (j >= 0 ==> j >= from && peers[j].used && peers[j].name == name)
      && forall k :: from <= k < (if j < 0 then |peers| else j) ==> !(peers[k].used && peers[k].name == name)
    decreases |peers| - from
  {
    if from < |peers| { FindPeerFinds(peers, name, from + 1); }
  }

  lemma DenialAdds(d: Daemon, i: nat, e: Env, cap: string, reason: string, ok: bool)
    requires i < |d.peers|
    ensures var d' := Denial(d, i, cap, reason, ok);
      d.sent <= d'.sent && |d'.sent| <= |d.sent| + 1 && Proper(d, i, e, Added(d, d'))
    ensures forall k :: |d.sent| <= k < |Denial(d, i, cap, reason, ok).sent| ==>
      Denial(d, i, cap, reason, ok).sent[k].Answer? && Denial(d, i, cap, reason, ok).sent[k].attached.None? &&
      Denial(d, i, cap, reason, ok).sent[k].chan == d.peers[i].brokerFd
  {
  }

  lemma IssueAdds(d: Daemon, i: nat, e: Env, cap: string)
    requires i < |d.peers| && e.arrival.Packet? && KIND <= cap && Allowed(PolicyOf(d, i), cap)
    requires var f := Parse(e.arrival.text);
      f.Some? && Complete(f.value) && f.value[Verb] == "request" && cap == CString(f.value[Cap])
    ensures var d' := Issue(d, i, e, cap, cap[|KIND|..]); d.sent <= d'.sent && Proper(d, i, e, Added(d, d'))
  {
    hide Denial, Meta, Parse, Complete, CString, Allowed, FormatIssued, FindPeer;
    var target := cap[|KIND|..];
    FindPeerFinds(d.peers, target, 0);
    var j := FindPeer(d.peers, target, 0);
    if j < 0 || !Listening(d.peers[j]) {
      DenialAdds(d, i, e, cap, "no-listener", e.answered);
    } else if e.pair.None? {
      DenialAdds(d, i, e, cap, e.error, e.answered);
    } else {
      IssuePairAdds(d, i, e, cap, j);
    }
  }

  lemma IssuePairAdds(d: Daemon, i: nat, e: Env, cap: string, j: nat)
    requires i < |d.peers| && e.arrival.Packet? && KIND <= cap && Allowed(PolicyOf(d, i), cap)
    requires var f := Parse(e.arrival.text);
      f.Some? && Complete(f.value) && f.value[Verb] == "request" && cap == CString(f.value[Cap])
    requires j < |d.peers| && FindPeer(d.peers, cap[|KIND|..], 0) == j && Listening(d.peers[j]) && e.pair.Some?
    requires d.peers[j].used && d.peers[j].name == cap[|KIND|..]
    ensures var d' := Issue(d, i, e, cap, cap[|KIND|..]); d.sent <= d'.sent && Proper(d, i, e, Added(d, d'))
  {
    hide Denial, Meta, Parse, Complete, CString, Allowed, FormatIssued, FindPeer, Proper;
    var (a, b) := e.pair.value;
    var first := Delivery(d.peers[j].inboxFd, Meta(d.peers[i].name, d.peers[i].pid, e.uid), b, e.delivered);
    var d2 := Close(Opened(d, [a, b]).(sent := d.sent + [first]), b);
    var d3 := Close(d2, a);
    assert d3.sent == d.sent + [first] && d3.peers == d.peers;
    if !e.delivered || e.token.None? {
      var reason := if !e.delivered then e.error else "entropy-failure";
      DenialAdds(d3, i, e, cap, reason, e.answered);
      var d' := Denial(d3, i, cap, reason, e.answered);
      assert Added(d, d') == [first] + Added(d3, d');
      DeliveredThenDenied(d, i, e, first, Added(d3, d'));
    } else if FormatIssued(cap, e.token.value).None? {
      assert Added(d, d3) == [first] + [];
      DeliveredThenDenied(d, i, e, first, []);
    } else {
      var last := Answer(d.peers[i].brokerFd, FormatIssued(cap, e.token.value).value, Some(a), e.answered);
      var d' := Issue(d, i, e, cap, cap[|KIND|..]);
      assert d'.sent == d.sent + [first] + [last];
      assert Added(d, d') == [first, last];
      AllowedByOwnPolicy(d, i, cap);
      assert Rightful(d, i, e, a, b, first.inbox, last.bytes);
      DeliveredThenIssued(d, i, e, first, last);
    }
  }

  lemma DeliveredThenDenied(d: Daemon, i: nat, e: Env, first: Sent, rest: seq<Sent>)
    requires i < |d.peers| && first.Delivery? && first.meta == Meta(d.peers[i].name, d.peers[i].pid, e.uid)
    requires |rest| <= 1
    requires forall k :: 0 <= k < |rest| ==>
      rest[k].Answer? && rest[k].attached.None? && rest[k].chan == d.peers[i].brokerFd
    ensures Proper(d, i, e, [first] + rest)
  {
    hide Meta, Rightful;
  }

  lemma DeliveredThenIssued(d: Daemon, i: nat, e: Env, first: Sent, last: Sent)
    requires i < |d.peers| && first.Delivery? && first.meta == Meta(d.peers[i].name, d.peers[i].pid, e.uid) && first.ok
    requires last.Answer? && last.chan == d.peers[i].brokerFd && last.attached.Some?
    requires Rightful(d, i, e, last.attached.value, first.fd, first.inbox, last.bytes)
    ensures Proper(d, i, e, [first, last])
  {
    hide Meta, Rightful;
  }

  lemma DecideAdds(d: Daemon, i: nat, e: Env)
    requires i < |d.peers| && e.arrival.Packet?
    ensures var d' := Decide(d, i, e, e.arrival.text); d.sent <= d'.sent && Proper(d, i, e, Added(d, d'))
  {
    hide Denial, Issue, Parse, Proper, Allowed, CString;
    var f := Parse(e.arrival.text);
    DenialAdds(d, i, e, "?", "malformed-request", e.answered);
    if f.Some? && Complete(f.value) && f.value[Verb] == "request" {
      var cap := CString(f.value[Cap]);
      DenialAdds(d, i, e, cap, "not-in-caps", e.answered);
      DenialAdds(d, i, e, cap, "unknown-cap-kind", e.answered);
      if KIND <= cap && Allowed(PolicyOf(d, i), cap) { IssueAdds(d, i, e, cap); }
    }
  }

  /** What one event sends. In particular it answers the requester at most once. */
  lemma HandleIsProper(d: Daemon, i: nat, e: Env)
    requires i < |d.peers|
    ensures d.sent <= Handle(d, i, e).sent && Proper(d, i, e, Added(d, Handle(d, i, e)))
  {
    hide Decide, Rightful, Meta;
    if e.arrival.Packet? && e.arrival.text != [] {
      var d1 := CloseAll(Receive(d, e), e.arrival.inbound);
      CloseAllKeeps(Receive(d, e), e.arrival.inbound);
      DecideAdds(d1, i, e);
      RightfulFrame(d1, d, i, e);
      assert Added(d, Handle(d, i, e)) == Added(d1, Handle(d, i, e));
    }
  }

  lemma RightfulFrame(d1: Daemon, d: Daemon, i: nat, e: Env)
    requires d1.peers == d.peers && d1.policies == d.policies
    ensures forall fd, other, inbox, bytes :: Rightful(d1, i, e, fd, other, inbox, bytes) ==>
      Rightful(d, i, e, fd, other, inbox, bytes)
  {
    hide Parse, Complete, CString, Allowed, FormatIssued;
  }

  // ----- who gets what --------------------------------------------------

  /** The capability a packet asks for, if it is a well-formed request. */
  ghost function Asked(text: string): Option<string> {
    var f := Parse(text);
    if f.Some? && Complete(f.value) && f.value[Verb] == "request" then Some(CString(f.value[Cap])) else None
  }

  /** Slot j is the first of that name, and can be delivered to. */
  predicate Reaches(peers: seq<Peer>, name: string, j: nat) {
    && j < |peers| && peers[j].used && peers[j].name == name
    && peers[j].pid > 0 && peers[j].inboxFd >= 0 && peers[j].alive
    && forall k :: 0 <= k < j ==> !(peers[k].used && peers[k].name == name)
  }

  /** The denial of `cap` on the channel of slot i: one answer without a descriptor, if it fits the message. */
  predicate Refused(d: Daemon, i: nat, e: Env, cap: string, reason: string, added: seq<Sent>)
    requires i < |d.peers|
  {
    added == match FormatDenied(cap, reason)
      case None => []
      case Some(bytes) => [Answer(d.peers[i].brokerFd, bytes, None, e.answered)]
  }

  /** One end of the minted pair, on its way to the inbox of slot j. */
  function Handover(d: Daemon, i: nat, e: Env, j: nat): Sent
    requires i < |d.peers| && j < |d.peers| && e.pair.Some?
  {
    var meta := "SENDER " + d.peers[i].name + "\nPID " + Decimal(d.peers[i].pid) + "\nUID " + Decimal(e.uid) + "\n\n";
    Delivery(d.peers[j].inboxFd, meta, e.pair.value.1, e.delivered)
  }

  lemma HandoverIs(d: Daemon, i: nat, e: Env, j: nat)
    requires i < |d.peers| && j < |d.peers| && e.pair.Some?
    ensures Handover(d, i, e, j) ==
      Delivery(d.peers[j].inboxFd, Meta(d.peers[i].name, d.peers[i].pid, e.uid), e.pair.value.1, e.delivered)
  {
  }

  lemma DenialIsRefused(d: Daemon, i: nat, e: Env, cap: string, reason: string)
    requires i < |d.peers|
    ensures var d' := Denial(d, i, cap, reason, e.answered);
      |d.sent| <= |d'.sent| && Refused(d, i, e, cap, reason, Added(d, d'))
  {
  }

  lemma ReachedIsFound(peers: seq<Peer>, name: string)
    ensures var j := FindPeer(peers, name, 0);
      && -1 <= j < |peers|
      && (j >= 0 && Listening(peers[j]) ==> Reaches(peers, name, j))
      && (forall k: nat :: Reaches(peers, name, k) ==> k == j)
  {
    FindPeerFinds(peers, name, 0);
  }

  /** An allowed request for a mailbox, by who listens and what succeeds. */
  lemma IssueSends(d: Daemon, i: nat, e: Env, cap: string, target: string)
    requires i < |d.peers|
    ensures |d.sent| <= |Issue(d, i, e, cap, target).sent|
    ensures var added := Added(d, Issue(d, i, e, cap, target));
      && ((forall j: nat :: !Reaches(d.peers, target, j)) ==> Refused(d, i, e, cap, "no-listener", added))
      && (forall j: nat :: Reaches(d.peers, target, j) ==> PairSends(d, i, e, cap, j, added))
  {
    hide Denial, Meta, FormatIssued, FindPeer, Refused, Reaches, PairSends;
    ReachedIsFound(d.peers, target);
    var j := FindPeer(d.peers, target, 0);
    if j < 0 || !Listening(d.peers[j]) {
      DenialIsRefused(d, i, e, cap, "no-listener");
      NotReached(d.peers, target, j);
    } else {
      IssuePairSends(d, i, e, cap, target, j);
    }
  }

  lemma NotReached(peers: seq<Peer>, name: string, j: int)
    requires forall k: nat :: Reaches(peers, name, k) ==> k == j
    requires j < 0 || j >= |peers| || !Listening(peers[j])
    ensures forall k: nat :: !Reaches(peers, name, k)
  {
  }

  /** What is sent once slot j can be delivered to. */
  predicate PairSends(d: Daemon, i: nat, e: Env, cap: string, j: nat, added: seq<Sent>)
    requires i < |d.peers|
  {
    if e.pair.None? then Refused(d, i, e, cap, e.error, added)
    else
      j < |d.peers| && added != [] && added[0] == Handover(d, i, e, j) &&
      if !e.delivered then Refused(d, i, e, cap, e.error, added[1..])
      else if e.token.None? then Refused(d, i, e, cap, "entropy-failure", added[1..])
      else
        added[1..] == match FormatIssued(cap, e.token.value)
          case None => []
          case Some(bytes) => [Answer(d.peers[i].brokerFd, bytes, Some(e.pair.value.0), e.answered)]
  }

  lemma IssuePairSends(d: Daemon, i: nat, e: Env, cap: string, target: string, j: nat)
    requires i < |d.peers| && j < |d.peers| && FindPeer(d.peers, target, 0) == j && Listening(d.peers[j])
    ensures var d' := Issue(d, i, e, cap, target);
      |d.sent| <= |d'.sent| && PairSends(d, i, e, cap, j, Added(d, d'))
  {
    hide Denial, Meta, FormatIssued, FindPeer, Refused, Handover;
    var d' := Issue(d, i, e, cap, target);
    if e.pair.None? {
      DenialIsRefused(d, i, e, cap, e.error);
    } else {
      var (a, b) := e.pair.value;
      var first := Handover(d, i, e, j);
      HandoverIs(d, i, e, j);
      var d3 := Close(Close(Opened(d, [a, b]).(sent := d.sent + [first]), b), a);
      assert d3.sent == d.sent + [first] && d3.peers == d.peers;
      if !e.delivered || e.token.None? {
        var reason := if !e.delivered then e.error else "entropy-failure";
        DenialIsRefused(d3, i, e, cap, reason);
        assert d' == Denial(d3, i, cap, reason, e.answered);
        RefusedFrame(d3, d, i, e, cap, reason, Added(d3, d'));
        DenialGrows(d3, i, cap, reason, e.answered);
        assert Added(d, d') == [first] + Added(d3, d');
      } else {
        assert Added(d, d')[1..] == d'.sent[|d.sent| + 1..];
      }
    }
  }

  lemma DenialGrows(d: Daemon, i: nat, cap: string, reason: string, ok: bool)
    requires i < |d.peers|
    ensures d.sent <= Denial(d, i, cap, reason, ok).sent
  {
  }

  lemma RefusedFrame(d1: Daemon, d: Daemon, i: nat, e: Env, cap: string, reason: string, added: seq<Sent>)
    requires i < |d.peers| && d1.peers == d.peers && Refused(d1, i, e, cap, reason, added)
    ensures Refused(d, i, e, cap, reason, added)
  {
  }

  /** What one event sends, case by case: nothing at the end of the channel; a denial that says why; and for a
      well-formed, allowed request for the mailbox of an agent that listens, one end of a new pair to that agent and,
      if that and the token succeed, the other end to the requester. */
  ghost predicate Sends(d: Daemon, i: nat, e: Env, added: seq<Sent>)
    requires i < |d.peers|
  {
    if e.arrival.Failed? || e.arrival.text == [] then added == []
    else match Asked(e.arrival.text)
      case None => Refused(d, i, e, "?", "malformed-request", added)
      case Some(cap) =>
        if !AllowedTo(d, d.peers[i].name, cap) then Refused(d, i, e, cap, "not-in-caps", added)
        else if !("mailbox.send:" <= cap) then Refused(d, i, e, cap, "unknown-cap-kind", added)
        else
          && ((forall j: nat :: !Reaches(d.peers, cap[13..], j)) ==> Refused(d, i, e, cap, "no-listener", added))
          && (forall j: nat :: Reaches(d.peers, cap[13..], j) ==> PairSends(d, i, e, cap, j, added))
  }

  lemma DecideSends(d: Daemon, i: nat, e: Env)
    requires i < |d.peers| && e.arrival.Packet? && e.arrival.text != []
    ensures var d' := Decide(d, i, e, e.arrival.text);
      |d.sent| <= |d'.sent| && Sends(d, i, e, Added(d, d'))
  {
    hide Denial, Issue, Parse, Refused, Allowed, CString, PairSends, Reaches;
    DenialIsRefused(d, i, e, "?", "malformed-request");
    var asked := Asked(e.arrival.text);
    if asked.Some? {
      var cap := asked.value;
      DenialIsRefused(d, i, e, cap, "not-in-caps");
      DenialIsRefused(d, i, e, cap, "unknown-cap-kind");
      AllowedByOwnPolicy(d, i, cap);
      if KIND <= cap { IssueSends(d, i, e, cap, cap[|KIND|..]); }
    }
  }

  /** Only the table and the policies matter. */
  lemma SendsFrame(d1: Daemon, d: Daemon, i: nat, e: Env, added: seq<Sent>)
    requires i < |d.peers| && d1.peers == d.peers && d1.policies == d.policies && Sends(d1, i, e, added)
    ensures Sends(d, i, e, added)
  {
    hide Asked, Allowed, Reaches, FormatDenied, FormatIssued, Meta;
  }

  lemma HandleSends(d: Daemon, i: nat, e: Env)
    requires i < |d.peers|
    ensures |d.sent| <= |Handle(d, i, e).sent| && Sends(d, i, e, Added(d, Handle(d, i, e)))
  {
    hide Decide, Asked, Allowed, Refused, PairSends, Reaches;
    if e.arrival.Packet? && e.arrival.text != [] {
      var d1 := CloseAll(Receive(d, e), e.arrival.inbound);
      CloseAllKeeps(Receive(d, e), e.arrival.inbound);
      DecideSends(d1, i, e);
      SendsFrame(d1, d, i, e, Added(d1, Handle(d, i, e)));
    }
  }

  /** Everything a requester needs for its descriptor. */
  ghost predicate Granted(d: Daemon, i: nat, e: Env, cap: string, j: nat, bytes: string)
    requires i < |d.peers|
  {
    && e.arrival.Packet? && e.arrival.text != [] && Asked(e.arrival.text) == Some(cap)
    && AllowedTo(d, d.peers[i].name, cap) && "mailbox.send:" <= cap && Reaches(d.peers, cap[13..], j)
    && e.pair.Some? && e.delivered && e.token.Some? && FormatIssued(cap, e.token.value) == Some(bytes)
  }

  predicate CarriesDescriptor(added: seq<Sent>) {
    exists k :: 0 <= k < |added| && added[k].Answer? && added[k].attached.Some?
  }

  /** A requester is sent a descriptor exactly when it asked in due form, its policy allows it, the first agent of that
      name listens, and pair, delivery, token and reply succeed; and then these two messages are all that is sent. */
  lemma GrantedExactly(d: Daemon, i: nat, e: Env)
    requires i < |d.peers|
    ensures |d.sent| <= |Handle(d, i, e).sent|
    ensures CarriesDescriptor(Added(d, Handle(d, i, e))) <==> exists cap, j, bytes :: Granted(d, i, e, cap, j, bytes)
    ensures forall cap, j, bytes :: Granted(d, i, e, cap, j, bytes) ==>
      Added(d, Handle(d, i, e)) ==
        [Handover(d, i, e, j), Answer(d.peers[i].brokerFd, bytes, Some(e.pair.value.0), e.answered)]
  {
    hide Handle, Asked, Allowed, Reaches, FormatDenied, FormatIssued, Meta;
    HandleSends(d, i, e);
    var added := Added(d, Handle(d, i, e));
    forall cap, j, bytes | Granted(d, i, e, cap, j, bytes)
      ensures added == [Handover(d, i, e, j), Answer(d.peers[i].brokerFd, bytes, Some(e.pair.value.0), e.answered)]
    {
      assert PairSends(d, i, e, cap, j, added);
      assert added == [added[0]] + added[1..];
    }
    if CarriesDescriptor(added) { CarriedIsGranted(d, i, e, added); }
    if cap, j, bytes :| Granted(d, i, e, cap, j, bytes) { assert added[1].Answer? && added[1].attached.Some?; }
  }

  lemma CarriedIsGranted(d: Daemon, i: nat, e: Env, added: seq<Sent>)
    requires i < |d.peers| && Sends(d, i, e, added) && CarriesDescriptor(added)
    ensures exists cap, j, bytes :: Granted(d, i, e, cap, j, bytes)
  {
    hide Asked, Allowed, Reaches, FormatDenied, FormatIssued, Meta;
    var cap := Asked(e.arrival.text).value;
    var j: nat :| Reaches(d.peers, cap[13..], j);
    var k :| 0 <= k < |added| && added[k].Answer? && added[k].attached.Some?;
    assert PairSends(d, i, e, cap, j, added);
    assert k > 0 && added[1..][k - 1] == added[k];
    assert Granted(d, i, e, cap, j, FormatIssued(cap, e.token.value).value);
  }

  /** A denial for one of the handler's own reasons always fits, so it is sent, and the requester reads it back. */
  lemma DenialIsHeard(text: string, reason: string)
    requires reason in {"not-in-caps", "unknown-cap-kind", "no-listener", "entropy-failure"} && Asked(text).Some?
    ensures var cap := Asked(text).value;
      && FormatDenied(cap, reason).Some?
      && (cap != [] ==>
            Parse(FormatDenied(cap, reason).value) == Some(map[Verb := "denied", Cap := cap, Reason := reason]))
    ensures FormatDenied("?", "malformed-request").Some?
  {
    hide Parse, CString;
    var f := Parse(text).value;
    ParsedIsPlain(text, f, Cap);
    ParseInvertsDenied(CString(f[Cap]), reason);
    ParseInvertsDenied("?", "malformed-request");
    DenialFits(CString(f[Cap]), reason);
  }

  lemma DenialFits(cap: string, reason: string)
    requires |cap| < BROKER_CAP_MAX && |reason| < BROKER_REASON_MAX
    ensures FormatDenied(cap, reason).Some?
  {
  }

  // ----- runs -----------------------------------------------------------

  /** A broker event, anything the rest of the supervisor does to the table and its descriptors, or any edit of the
      policy files. */
  datatype Event =
    | Broker(i: nat, e: Env)
    | Table(peers: seq<Peer>, open: set<int>)
    | Files(policies: map<string, string>)

  ghost function Step(d: Daemon, ev: Event): Daemon {
    match ev
    case Broker(i, e) => if i < |d.peers| then Handle(d, i, e) else d
    case Table(peers, open) => d.(peers := peers, open := open)
    case Files(policies) => d.(policies := policies)
  }

  ghost function Run(d: Daemon, evs: seq<Event>): Daemon {
    if evs == [] then d else Step(Run(d, evs[..|evs| - 1]), evs[|evs| - 1])
  }

  /** Message n was sent by event ev in state d, and if it carries a descriptor to a requester, rightly so. */
  ghost predicate Accounted(d: Daemon, ev: Event, d': Daemon, n: nat) {
    && ev.Broker? && ev.i < |d.peers| && |d.sent| <= n < |d'.sent|
    && Proper(d, ev.i, ev.e, Added(d, d'))
  }

  lemma StepKeepsSent(d: Daemon, ev: Event)
    ensures d.sent <= Step(d, ev).sent
    ensures forall n :: |d.sent| <= n < |Step(d, ev).sent| ==> Accounted(d, ev, Step(d, ev), n)
  {
    hide Handle, Proper;
    if ev.Broker? && ev.i < |d.peers| { HandleIsProper(d, ev.i, ev.e); }
  }

  /** Over any run, every message sent was sent properly by one of the events: a descriptor issued on an
      agent's channel answers that agent's own request, allowed by the policy file of the agent in that slot as it was
      at that moment. */
  lemma {:induction false} EveryIssueIsRightful(d: Daemon, evs: seq<Event>, n: nat)
    requires |d.sent| <= n < |Run(d, evs).sent|
    ensures exists k :: 0 <= k < |evs| && Accounted(Run(d, evs[..k]), evs[k], Run(d, evs[..k + 1]), n)
    decreases |evs|
  {
    hide Step, Accounted;
    var m := |evs| - 1;
    var mid := Run(d, evs[..m]);
    StepKeepsSent(mid, evs[m]);
    if n < |mid.sent| {
      EveryIssueIsRightful(d, evs[..m], n);
      var k :| 0 <= k < m && Accounted(Run(d, evs[..m][..k]), evs[..m][k], Run(d, evs[..m][..k + 1]), n);
      assert evs[..m][..k] == evs[..k] && evs[..m][..k + 1] == evs[..k + 1];
    } else {
      assert evs[..m + 1] == evs;
    }
  }

  predicate QuietEvent(d: Daemon, i: nat, e: Env)
    requires i < |d.peers|
  {
    && d.peers[i].brokerFd in d.open && FreshEnv(d, e)
    && !(e.arrival.Packet? && e.arrival.text == [] && e.arrival.inbound != [])
  }

  /** Broker events on open channels, with fresh descriptors and no empty packet that carries any, and edits of the
      policy files. */
  ghost predicate Quiet(d: Daemon, evs: seq<Event>)
    decreases |evs|
  {
    evs == [] ||
    (var ev, d0 := evs[|evs| - 1], Run(d, evs[..|evs| - 1]);
     Quiet(d, evs[..|evs| - 1]) && (ev.Files? || (ev.Broker? && ev.i < |d0.peers| && QuietEvent(d0, ev.i, ev.e))))
  }

  /** The channels closed along a run. */
  ghost function Hangups(d: Daemon, evs: seq<Event>): set<int>
    decreases |evs|
  {
    if evs == [] then {}
    else
      var ev, d0 := evs[|evs| - 1], Run(d, evs[..|evs| - 1]);
      Hangups(d, evs[..|evs| - 1]) + (if ev.Broker? && ev.i < |d0.peers| then Hangup(d0, ev.i, ev.e) else {})
  }

  /** A run of broker events ends with exactly the descriptors it began with, less the channels it hung up. */
  lemma {:induction false} RunConserves(d: Daemon, evs: seq<Event>)
    requires Quiet(d, evs)
    ensures Run(d, evs).open == d.open - Hangups(d, evs) && Run(d, evs).faults == d.faults
    decreases |evs|
  {
    hide Handle, FreshEnv;
    if evs != [] {
      var m := |evs| - 1;
      RunConserves(d, evs[..m]);
      if evs[m].Broker? { ConservedExactly(Run(d, evs[..m]), evs[m].i, evs[m].e); }
    }
  }

  // ----- what the receiver reads ----------------------------------------

  function Word(s: string, n: nat): (r: string)
    ensures r <= s
  {
    if n == 0 || s == [] || White(s[0]) then [] else [s[0]] + Word(s[1..], n - 1)
  }

  /** ipc_accept's scan of the metadata: the sender word, then the pid. */
  function AfterKeyword(meta: string): string { if "SENDER" <= meta then SkipWhite(meta[6..]) else [] }

  function Sender(meta: string): string { Word(AfterKeyword(meta), 63) }

  function PidIn(s: string): nat {
    var r := SkipWhite(s);
    if "PID" <= r then Number(Digits(SkipWhite(r[3..]))) else 0
  }

  function SenderPid(meta: string): nat {
    if Sender(meta) == [] then 0 else PidIn(AfterKeyword(meta)[|Sender(meta)|..])
  }

  lemma {:induction false} WordOf(w: string, rest: string, n: nat)
    requires |w| <= n && (forall i :: 0 <= i < |w| ==> !White(w[i])) && rest != [] && White(rest[0])
    ensures Word(w + rest, n) == w
  {
    if w == [] {
      assert w + rest == rest;
    } else {
      WordOf(w[1..], rest, n - 1);
      assert (w + rest)[1..] == w[1..] + rest;
    }
  }

  /** The receiver reads back exactly the slot name and pid that the broker wrote. */
  lemma ReceiverReadsRequester(name: string, pid: nat, uid: nat)
    requires 0 < |name| <= 63 && forall i :: 0 <= i < |name| ==> !White(name[i])
    ensures Sender(Meta(name, pid, uid)) == name && SenderPid(Meta(name, pid, uid)) == pid
  {
    hide PidIn, Word, AfterKeyword;
    var tail := "\nUID " + Decimal(uid) + "\n\n";
    var rest := "\nPID " + (Decimal(pid) + tail);
    assert Meta(name, pid, uid) == "SENDER " + (name + rest);
    KeywordRead(name + rest);
    WordOf(name, rest, 63);
    assert (name + rest)[|name|..] == rest;
    PidRead(pid, tail);
  }

  lemma KeywordRead(s: string)
    requires s != [] && !White(s[0])
    ensures AfterKeyword("SENDER " + s) == s
  {
    SplitLiteral("SENDER ", s, 6);
    SkipOne(' ', s);
  }

  lemma PidRead(pid: nat, tail: string)
    requires tail != [] && !IsDigit(tail[0])
    ensures PidIn("\nPID " + (Decimal(pid) + tail)) == pid
  {
    var s := Decimal(pid) + tail;
    assert "\nPID " + s == "\n" + ("PID " + s);
    SkipOne('\n', "PID " + s);
    SplitLiteral("PID ", s, 3);
    SkipOne(' ', s);
    DigitsOf(Decimal(pid), tail);
    NumberOfDecimal(pid);
  }

  lemma SplitLiteral(w: string, s: string, n: nat)
    requires n <= |w|
    ensures (w + s)[n..] == w[n..] + s
  {
  }

  lemma SkipOne(c: char, s: string)
    requires White(c) && s != [] && !White(s[0])
    ensures SkipWhite([c] + s) == s
  {
    assert ([c] + s)[1..] == s;
  }

  // ----- the handler as agentd runs it ----------------------------------

  class BrokerDaemon {
    var peers: seq<Peer>
    var policies: map<string, string>
    var open: set<int>
    var faults: nat
    var sent: seq<Sent>

    function State(): Daemon
      reads this
    {
      Daemon(peers, policies, open, faults, sent)
    }

    constructor (peers: seq<Peer>, policies: map<string, string>, open: set<int>)
      ensures State() == Daemon(peers, policies, open, 0, [])
    {
      this.peers, this.policies, this.open, this.faults, this.sent := peers, policies, open, 0, [];
    }

    method CloseFd(fd: int)
      modifies this`open, this`faults
      ensures State() == Close(old(State()), fd)
    {
      if fd in open { open := open - {fd}; } else { faults := faults + 1; }
    }

    method CloseInbound(fds: seq<int>)
      modifies this`open, this`faults
      ensures State() == CloseAll(old(State()), fds)
    {
      var k := 0;
      assert fds[0..] == fds;
      while k < |fds|
        invariant 0 <= k <= |fds| && CloseAll(State(), fds[k..]) == CloseAll(old(State()), fds)
      {
        CloseFd(fds[k]);
        assert fds[k..][1..] == fds[k + 1..];
        k := k + 1;
      }
    }

    method Deny(i: nat, cap: string, reason: string, ok: bool)
      requires i < |peers|
      modifies this`sent
      ensures State() == Denial(old(State()), i, cap, reason, ok)
    {
      var bytes := FormatDenied(cap, reason);
      if bytes.Some? { sent := sent + [Answer(peers[i].brokerFd, bytes.value, None, ok)]; }
    }

    method FindByName(name: string) returns (j: int)
      ensures j == FindPeer(peers, name, 0) && -1 <= j < |peers|
    {
      var k := 0;
      while k < |peers|
        invariant 0 <= k <= |peers| && FindPeer(peers, name, k) == FindPeer(peers, name, 0)
      {
        if peers[k].used && peers[k].name == name { return k; }
        k := k + 1;
      }
      return -1;
    }

    method IssueChannel(i: nat, e: Env, cap: string, target: string)
      requires i < |peers|
      modifies this`open, this`faults, this`sent
      ensures State() == Issue(old(State()), i, e, cap, target)
    {
      hide Meta, FormatIssued;
      var j := FindByName(target);
      if j < 0 || !Listening(peers[j]) { Deny(i, cap, "no-listener", e.answered); return; }
      if e.pair.None? { Deny(i, cap, e.error, e.answered); return; }
      var (a, b) := e.pair.value;
      assert Range([a, b]) == {a, b};
      open := open + {a, b};
      sent := sent + [Delivery(peers[j].inboxFd, Meta(peers[i].name, peers[i].pid, e.uid), b, e.delivered)];
      CloseFd(b);
      if !e.delivered {
        CloseFd(a);
        Deny(i, cap, e.error, e.answered);
        return;
      }
      if e.token.None? {
        CloseFd(a);
        Deny(i, cap, "entropy-failure", e.answered);
        return;
      }
      var bytes := FormatIssued(cap, e.token.value);
      if bytes.None? { CloseFd(a); return; }
      sent := sent + [Answer(peers[i].brokerFd, bytes.value, Some(a), e.answered)];
      CloseFd(a);
    }

    method HandleEvent(i: nat, e: Env)
      requires i < |peers|
      modifies this`peers, this`open, this`faults, this`sent
      ensures State() == Handle(old(State()), i, e)
    {
      hide Denial, Issue, Parse, CString;
      if e.arrival.Packet? { open := open + Range(e.arrival.inbound); }
      if e.arrival.Failed? || e.arrival.text == [] {
        CloseFd(peers[i].brokerFd);
        peers := peers[i := peers[i].(brokerFd := -1)];
        return;
      }
      CloseInbound(e.arrival.inbound);
      var f := ParseBuffer(e.arrival.text);
      if f.None? || !Complete(f.value) || f.value[Verb] != "request" {
        Deny(i, "?", "malformed-request", e.answered);
        return;
      }
      var cap := CString(f.value[Cap]);
      var allowed := false;
      if peers[i].name in policies {
        var patterns := ScanPatterns(Readable(policies[peers[i].name]), MAX_PATTERNS);
        allowed := PolicyCheck(cap, patterns);
      }
      if !allowed { Deny(i, cap, "not-in-caps", e.answered); return; }
      if KIND <= cap { IssueChannel(i, e, cap, cap[|KIND|..]); return; }
      Deny(i, cap, "unknown-cap-kind", e.answered);
    }
  }
}
