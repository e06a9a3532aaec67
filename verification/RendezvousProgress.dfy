/** That requests are not lost in the rendezvous, and that a connect can succeed. */
module RendezvousProgress {
  import opened Common
  import opened Rendezvous
  import opened RendezvousSafety
  import opened RendezvousFailures

  // ----- a waiting connect's request is queued or being answered -----

  /** The request for a connect: where a stream is to go, or that a UDP tunnel is wanted. */
  predicate Asks(req: ManagerRes, id: string, c: Connect) {
    && req.connId == id
    && (c.kind.Tcp? ==> req.udp == 0 && req.addrInfo == Some(AddrInfo(c.host, c.port)))
    && (c.kind.Udp? ==> req.udp == 1 && req.addrInfo == None)
  }

  ghost predicate Queued(s: State, id: string)
    requires id in s.connects
  {
    var c := s.connects[id];
    c.session in s.sessions && exists i :: 0 <= i < |s.sessions[c.session].queue| && Asks(s.sessions[c.session].queue[i], id, c)
  }

  predicate Answers(call: Call, id: string, c: Connect) {
    call.origin.Some? && Asks(call.origin.value, id, c) && call.connId == Some(id) && call.kind == c.kind
  }

  ghost predicate Dialled(s: State, id: string)
    requires id in s.connects
  {
    exists k :: k in s.calls && Answers(s.calls[k], id, s.connects[id])
  }

  ghost predicate NotLost(s: State, id: string)
    requires id in s.connects
  {
    s.connects[id].pc.Waiting? ==> Queued(s, id) || Dialled(s, id)
  }

  /** Calls keep their first message and origin, and sessions their queue but for the head that is dialled. */
  lemma OriginStays(s: State, e: Event, k: nat)
    requires Enabled(s, e) && k in s.calls
    ensures k in Apply(s, e).calls
    ensures var a, b := s.calls[k], Apply(s, e).calls[k]; b.origin == a.origin && b.connId == a.connId && b.kind == a.kind
  {
    if e.CallClaim? {
      ClaimShape(s, e.c);
      ClaimKeepsOrigin(s, e.c);
    } else if e.CallCheck? {
      CheckShape(s, e.c);
      CheckKeepsOrigin(s, e.c);
    } else if e.CallDeliver? {
      DeliverShape(s, e.c);
      DeliverKeepsOrigin(s, e.c);
    } else if ByConnect(e) {
      ByConnectKeepsCalls(s, e);
    } else if e.CallArrive? || e.Dial? || e.ListenerAccept? {
      NewCallKeepsOthers(s, e, k);
    } else {
      SessionKeepsCalls(s, e);
    }
  }

  predicate SameOrigin(a: Call, b: Call) {
    b.origin == a.origin && b.connId == a.connId && b.kind == a.kind
  }

  lemma ClaimKeepsOrigin(s: State, c: nat)
    requires c in s.calls
    ensures c in Claim(s, c).calls && SameOrigin(s.calls[c], Claim(s, c).calls[c])
  {
    var call := s.calls[c];
    if call.connId.Some? && call.connId.value != "" && Slot(call.kind, call.connId.value) in s.pending {
      var t := WithCall(s, c, Claimed(s.pending[Slot(call.kind, call.connId.value)]));
      assert SameOrigin(call, t.calls[c]);
      assert Claim(s, c).calls == t.calls;
    }
  }

  lemma CheckKeepsOrigin(s: State, c: nat)
    requires c in s.calls && s.calls[c].pc.Claimed? && s.calls[c].connId.Some? && s.calls[c].connId.value in s.connects
    ensures c in Check(s, c).calls && SameOrigin(s.calls[c], Check(s, c).calls[c])
  {
  }

  lemma DeliverKeepsOrigin(s: State, c: nat)
    requires c in s.calls && s.calls[c].pc.Cleared? && s.calls[c].connId.Some? && s.calls[c].connId.value in s.connects
    ensures c in Deliver(s, c).calls && SameOrigin(s.calls[c], Deliver(s, c).calls[c])
  {
  }

  lemma NewCallKeepsOthers(s: State, e: Event, k: nat)
    requires Enabled(s, e) && (e.CallArrive? || e.Dial? || e.ListenerAccept?) && k in s.calls
    ensures k in Apply(s, e).calls && Apply(s, e).calls[k] == s.calls[k]
  {
  }

  lemma SendQueues(s: State, e: Event)
    requires Enabled(s, e) && e.ConnectSend? && e.id in Apply(s, e).connects && Apply(s, e).connects[e.id].pc.Waiting?
    ensures Queued(Apply(s, e), e.id)
  {
    SendShape(s, e.id);
    var t, c := Apply(s, e), s.connects[e.id];
    assert Asks(RequestOf(e.id, c), e.id, t.connects[e.id]);
    assert t.sessions[c.session].queue[|s.sessions[c.session].queue|] == RequestOf(e.id, c);
  }

  lemma SendShape(s: State, id: string)
    requires Enabled(s, ConnectSend(id))
    ensures var t, c := Apply(s, ConnectSend(id)), s.connects[id];
      if s.sessions[c.session].open
      then id in t.connects && t.connects[id] == c.(pc := Waiting) && c.session in t.sessions
        && t.sessions[c.session].queue == s.sessions[c.session].queue + [RequestOf(id, c)]
      else id in t.connects && !t.connects[id].pc.Waiting?
  {
  }

  lemma DialAnswers(s: State, e: Event, id: string)
    requires Inv(s) && Enabled(s, e) && e.Dial? && id in s.connects && Queued(s, id)
    ensures id in Apply(s, e).connects && (Queued(Apply(s, e), id) || Dialled(Apply(s, e), id))
  {
    var t, c := Apply(s, e), s.connects[id];
    var queue := s.sessions[c.session].queue;
    var i :| 0 <= i < |queue| && Asks(queue[i], id, c);
    if e.m != c.session {
      assert t.sessions[c.session].queue[i] == queue[i];
    } else if i == 0 {
      assert Answers(t.calls[e.c], id, t.connects[id]);
    } else {
      assert t.sessions[c.session].queue[i - 1] == queue[i];
    }
  }

  /** No event but a dial takes anything out of a queue. */
  lemma QueueStays(s: State, e: Event, m: nat, i: nat)
    requires Enabled(s, e) && !e.Dial? && m in s.sessions && i < |s.sessions[m].queue|
    ensures m in Apply(s, e).sessions && i < |Apply(s, e).sessions[m].queue|
    ensures Apply(s, e).sessions[m].queue[i] == s.sessions[m].queue[i]
  {
    if ByHandler(e) {
      if e.CallClaim? { ClaimShape(s, e.c); } else if e.CallCheck? { CheckShape(s, e.c); } else { DeliverShape(s, e.c); }
    } else if e.ConnectSend? {
      SendKeepsQueues(s, e, m, i);
    } else if ByConnect(e) {
      if e.ConnectFind? || e.ConnectRegister? {
        ConnectStartShape(s, e);
      } else if e.ConnectRemove? {
        ConnectRemoveShape(s, e);
      } else {
        ConnectEndShape(s, e);
      }
    } else {
      OthersKeepQueues(s, e, m);
    }
  }

  lemma SendKeepsQueues(s: State, e: Event, m: nat, i: nat)
    requires Enabled(s, e) && e.ConnectSend? && m in s.sessions && i < |s.sessions[m].queue|
    ensures m in Apply(s, e).sessions && i < |Apply(s, e).sessions[m].queue|
    ensures Apply(s, e).sessions[m].queue[i] == s.sessions[m].queue[i]
  {
  }

  lemma OthersKeepQueues(s: State, e: Event, m: nat)
    requires Enabled(s, e) && !ByConnect(e) && !ByHandler(e) && !e.Dial? && m in s.sessions
    ensures m in Apply(s, e).sessions && Apply(s, e).sessions[m].queue == s.sessions[m].queue
  {
  }

  lemma StillNotLost(s: State, e: Event, id: string)
    requires Inv(s) && Enabled(s, e) && id in s.connects && (Queued(s, id) || Dialled(s, id))
    ensures id in Apply(s, e).connects && (Queued(Apply(s, e), id) || Dialled(Apply(s, e), id))
  {
    var t := Apply(s, e);
    StaticStays(s, e, id);
    if Dialled(s, id) {
      var k :| k in s.calls && Answers(s.calls[k], id, s.connects[id]);
      OriginStays(s, e, k);
      assert Answers(t.calls[k], id, t.connects[id]);
    } else if e.Dial? {
      DialAnswers(s, e, id);
    } else {
      var m := s.connects[id].session;
      var i :| 0 <= i < |s.sessions[m].queue| && Asks(s.sessions[m].queue[i], id, s.connects[id]);
      QueueStays(s, e, m, i);
      assert Asks(t.sessions[m].queue[i], id, t.connects[id]);
    }
  }

  lemma StaticStays(s: State, e: Event, id: string)
    requires Enabled(s, e) && id in s.connects
    ensures id in Apply(s, e).connects && SameStatic(Apply(s, e).connects[id], s.connects[id])
    ensures Apply(s, e).connects[id].pc.Waiting? ==> s.connects[id].pc.Waiting? || (e.ConnectSend? && e.id == id)
  {
    if ByHandler(e) {
      ByHandlerGrows(s, e, id);
    } else if ByConnect(e) {
      ByConnectGrows(s, e, id);
      if e.id == id { WaitingFromSend(s, e); }
    } else if e.CallArrive? || e.Dial? || e.ListenerAccept? {
      NewCallGrows(s, e, id);
    } else {
      BySessionGrows(s, e, id);
    }
  }

  lemma RegisterIsNotWaiting(s: State, e: Event)
    requires Enabled(s, e) && e.ConnectRegister?
    ensures e.id in Apply(s, e).connects && !Apply(s, e).connects[e.id].pc.Waiting?
  {
  }

  lemma EndIsNotWaiting(s: State, e: Event)
    requires Enabled(s, e) && (e.ConnectReceive? || e.ConnectClosed? || e.ConnectTimeout?)
    ensures e.id in Apply(s, e).connects && !Apply(s, e).connects[e.id].pc.Waiting?
  {
  }

  lemma RemoveIsNotWaiting(s: State, id: string)
    requires Enabled(s, ConnectRemove(id))
    ensures id in Apply(s, ConnectRemove(id)).connects && !Apply(s, ConnectRemove(id)).connects[id].pc.Waiting?
  {
    var c := s.connects[id];
    var t := WithConnect(s, id, Returned(Err(c.pc.error)));
    var slot := Slot(c.kind, id);
    if slot in s.pending {
      assert Apply(s, ConnectRemove(id)) == WithSender(t, id, Dropped).(pending := s.pending - {slot});
    } else {
      assert Apply(s, ConnectRemove(id)) == t;
    }
  }

  lemma WaitingFromSend(s: State, e: Event)
    requires Enabled(s, e) && ByConnect(e) && e.id in s.connects && e.id in Apply(s, e).connects
    ensures Apply(s, e).connects[e.id].pc.Waiting? ==> e.ConnectSend?
  {
    if e.ConnectRegister? {
      RegisterIsNotWaiting(s, e);
    } else if e.ConnectRemove? {
      RemoveIsNotWaiting(s, e.id);
    } else if !e.ConnectSend? {
      EndIsNotWaiting(s, e);
    }
  }

  lemma NotLostKept(s: State, e: Event, id: string)
    requires Inv(s) && Enabled(s, e) && id in Apply(s, e).connects && (id in s.connects ==> NotLost(s, id))
    ensures NotLost(Apply(s, e), id)
  {
    if id !in s.connects {
      NewConnectIsFound(s, e, id);
    } else if Apply(s, e).connects[id].pc.Waiting? {
      StaticStays(s, e, id);
      if e.ConnectSend? && e.id == id {
        SendQueues(s, e);
      } else {
        StillNotLost(s, e, id);
      }
    }
  }

  lemma NewConnectIsFound(s: State, e: Event, id: string)
    requires Enabled(s, e) && id !in s.connects && id in Apply(s, e).connects
    ensures !Apply(s, e).connects[id].pc.Waiting?
  {
    if ByHandler(e) {
      ByHandlerGrows(s, e, id);
    } else if ByConnect(e) {
      ByConnectGrows(s, e, id);
      FoundIsNotWaiting(s, e);
    } else if e.CallArrive? || e.Dial? || e.ListenerAccept? {
      NewCallGrows(s, e, id);
    } else {
      BySessionGrows(s, e, id);
    }
  }

  lemma FoundIsNotWaiting(s: State, e: Event)
    requires Enabled(s, e) && ByConnect(e) && e.id !in s.connects
    ensures e.id in Apply(s, e).connects && Apply(s, e).connects[e.id].pc.Found?
  {
  }

  lemma {:induction false} RunKeepsNotLost(s: State, run: seq<Event>, id: string)
    requires Inv(s) && Legal(s, run) && (id in s.connects ==> NotLost(s, id))
    ensures id in Exec(s, run).connects ==> NotLost(Exec(s, run), id)
    decreases |run|
  {
    if run != [] {
      var t := Apply(s, run[0]);
      InvKept(s, run[0]);
      if id in t.connects { NotLostKept(s, run[0], id); }
      RunKeepsNotLost(t, run[1..], id);
    }
  }

  /**
   * A connect that waits has not been forgotten: its request, for exactly its host, port and kind, is still in
   * the queue of the session it found, or a call was made that answers it.
   */
  lemma WaitingIsRequested(s: State, id: string)
    requires Reachable(s) && id in s.connects && s.connects[id].pc.Waiting?
    ensures Queued(s, id) || Dialled(s, id)
  {
    var run :| Legal(Init(s.pwMap), run) && Exec(Init(s.pwMap), run) == s;
    InitInv(s.pwMap);
    RunKeepsNotLost(Init(s.pwMap), run, id);
  }

  // ----- what can still happen -----

  ghost predicate Leads(s: State, t: State) {
    exists run :: Legal(s, run) && Exec(s, run) == t
  }

  lemma {:induction false} RunConcat(s: State, first: seq<Event>, second: seq<Event>)
    requires Legal(s, first) && Legal(Exec(s, first), second)
    ensures Legal(s, first + second) && Exec(s, first + second) == Exec(Exec(s, first), second)
    decreases |first|
  {
    if first == [] {
      assert first + second == second;
    } else {
      assert (first + second)[0] == first[0] && (first + second)[1..] == first[1..] + second;
      RunConcat(Apply(s, first[0]), first[1..], second);
    }
  }

  lemma Nowhere(s: State)
    ensures Leads(s, s)
  {
    assert Legal(s, []) && Exec(s, []) == s;
  }

  lemma OneStep(s: State, e: Event)
    requires Enabled(s, e)
    ensures Legal(s, [e]) && Exec(s, [e]) == Apply(s, e)
  {
    assert [e][1..] == [];
    assert Exec(Apply(s, e), []) == Apply(s, e);
  }

  lemma Then(s: State, t: State, e: Event)
    requires Leads(s, t) && Enabled(t, e)
    ensures Leads(s, Apply(t, e))
  {
    var run :| Legal(s, run) && Exec(s, run) == t;
    OneStep(t, e);
    RunConcat(s, run, [e]);
    assert Legal(s, run + [e]) && Exec(s, run + [e]) == Apply(t, e);
  }

  lemma LeadsInv(s: State, t: State)
    requires Inv(s) && Leads(s, t)
    ensures Inv(t)
  {
    var run :| Legal(s, run) && Exec(s, run) == t;
    RunKeepsInv(s, run);
  }

  lemma {:induction false} FreshNumber(taken: set<nat>) returns (k: nat)
    ensures forall j <- taken :: j < k
  {
    if taken == {} {
      k := 0;
    } else {
      var j :| j in taken;
      var rest := FreshNumber(taken - {j});
      k := if j < rest then rest else j + 1;
      forall i <- taken ensures i < k {
        assert i == j || i in taken - {j};
      }
    }
  }

  /** The requests in front of a session's queue are dialled. */
  lemma {:induction false} DialAhead(s: State, t: State, m: nat, n: nat) returns (u: State)
    requires Leads(s, t) && m in t.sessions && n <= |t.sessions[m].queue|
    ensures Leads(s, u) && m in u.sessions && u.sessions[m] == t.sessions[m].(queue := t.sessions[m].queue[n..])
    ensures u.connects == t.connects && u.pending == t.pending && u.accepted == t.accepted
    decreases n
  {
    if n == 0 {
      u := t;
    } else {
      var c := FreshNumber(t.calls.Keys);
      var e := Dial(m, c, "");
      Then(s, t, e);
      var v := Apply(t, e);
      assert v.sessions[m].queue == t.sessions[m].queue[1..];
      u := DialAhead(s, v, m, n - 1);
      assert t.sessions[m].queue[1..][n - 1..] == t.sessions[m].queue[n..];
    }
  }

  /** The password the connector expects of the one that dials back. */
  function KnownPassword(c: Connect): string {
    if c.pw.Some? then c.pw.value else ""
  }

  /** The connect has registered and asked; its request heads the queue. */
  ghost predicate Asked(t: State, id: string, c: Connect) {
    && id != "" && id in t.connects && t.connects[id] == c.(pc := Waiting, sender := InTable)
    && Slot(c.kind, id) in t.pending && t.pending[Slot(c.kind, id)] == PendingOf(c)
    && c.session in t.sessions && t.sessions[c.session].queue != [] && t.sessions[c.session].queue[0] == RequestOf(id, c)
  }

  lemma AskStep(s: State, id: string) returns (u: State)
    requires Inv(s) && id in s.connects && s.connects[id].pc.Found?
    requires s.connects[id].session in s.sessions && s.sessions[s.connects[id].session].open
    ensures Leads(s, u) && Asked(u, id, s.connects[id]) && u.accepted == s.accepted
  {
    var c := s.connects[id];
    var m := c.session;
    assert ConnectInv(s, id);
    Nowhere(s);
    Then(s, s, ConnectRegister(id));
    var t := Apply(s, ConnectRegister(id));
    Then(s, t, ConnectSend(id));
    var v := Apply(t, ConnectSend(id));
    var queue := s.sessions[m].queue;
    assert v.sessions[m].queue == queue + [RequestOf(id, c)];
    u := DialAhead(s, v, m, |queue|);
    assert (queue + [RequestOf(id, c)])[|queue|..] == [RequestOf(id, c)];
  }

  /** The answering call, claimed, checked and delivered. */
  function Answering(id: string, c: Connect, pc: CallPc): Call {
    Call(c.kind, KnownPassword(c), Some(id), Some(RequestOf(id, c)), pc)
  }

  lemma DialStep(s: State, t: State, id: string, c: Connect, k: nat) returns (u: State)
    requires Leads(s, t) && Asked(t, id, c) && k !in t.calls
    ensures Leads(s, u) && k in u.calls && u.calls[k] == Answering(id, c, Arrived)
    ensures u.connects == t.connects && u.pending == t.pending && u.accepted == t.accepted
  {
    var e := Dial(c.session, k, KnownPassword(c));
    Then(s, t, e);
    u := Apply(t, e);
  }

  lemma ClaimStep(s: State, t: State, id: string, c: Connect, k: nat) returns (u: State)
    requires Leads(s, t) && k in t.calls && t.calls[k] == Answering(id, c, Arrived)
    requires id != "" && id in t.connects && t.connects[id] == c.(pc := Waiting, sender := InTable)
    requires Slot(c.kind, id) in t.pending && t.pending[Slot(c.kind, id)] == PendingOf(c)
    ensures Leads(s, u) && k in u.calls && u.calls[k] == Answering(id, c, Claimed(PendingOf(c)))
    ensures id in u.connects && u.connects[id] == c.(pc := Waiting, sender := HeldBy(k)) && u.accepted == t.accepted
  {
    Then(s, t, CallClaim(k));
    u := Claim(t, k);
  }

  lemma CheckStep(s: State, t: State, id: string, c: Connect, k: nat) returns (u: State)
    requires Leads(s, t) && k in t.calls && t.calls[k] == Answering(id, c, Claimed(PendingOf(c)))
    requires id in t.connects && t.connects[id] == c.(pc := Waiting, sender := HeldBy(k))
    ensures Leads(s, u) && k in u.calls && u.calls[k] == Answering(id, c, Cleared(PendingOf(c)))
    ensures id in u.connects && u.connects[id] == t.connects[id] && u.accepted == t.accepted
  {
    Then(s, t, CallCheck(k));
    u := Check(t, k);
  }

  lemma DeliverStep(s: State, t: State, id: string, c: Connect, k: nat) returns (u: State)
    requires Leads(s, t) && k in t.calls && t.calls[k] == Answering(id, c, Cleared(PendingOf(c)))
    requires id in t.connects && t.connects[id] == c.(pc := Waiting, sender := HeldBy(k))
    ensures Leads(s, u) && k in u.calls && u.calls[k] == Answering(id, c, Answered(Delivered))
    ensures id in u.connects && u.connects[id] == c.(pc := Waiting, sender := Sent(RevStream(k, c.host, c.port)))
    ensures u.accepted == t.accepted
  {
    Then(s, t, CallDeliver(k));
    u := Deliver(t, k);
  }

  /** The connect returned the stream of call k, which the listener, if it is a stream, accepted for the same address. */
  ghost predicate Succeeded(u: State, id: string, c: Connect, k: nat) {
    && id in u.connects && u.connects[id].pc == Returned(Ok(RevStream(k, c.host, c.port)))
    && k in u.calls && u.calls[k].connId == Some(id) && u.calls[k].kind == c.kind
    && (c.kind.Tcp? ==> k in u.accepted && u.accepted[k] == RunAddr(c.host, c.port, false))
  }

  lemma FinishStep(s: State, t: State, id: string, c: Connect, k: nat) returns (u: State)
    requires Leads(s, t) && k in t.calls && t.calls[k] == Answering(id, c, Answered(Delivered)) && k !in t.accepted
    requires id in t.connects && t.connects[id] == c.(pc := Waiting, sender := Sent(RevStream(k, c.host, c.port)))
    ensures Leads(s, u) && Succeeded(u, id, c, k)
  {
    Then(s, t, ConnectReceive(id));
    u := Apply(t, ConnectReceive(id));
    if c.kind.Tcp? {
      Then(s, u, ListenerAccept(k));
      u := Apply(u, ListenerAccept(k));
    }
  }

  /**
   * A connect that has found a session whose request channel is open can succeed, whatever has happened before
   * and whatever else is queued: the listener dials back with the password the connector expects, and both ends
   * end up with one stream for the address asked for.
   */
  lemma ConnectCanSucceed(s: State, id: string) returns (u: State, k: nat)
    requires Reachable(s) && id in s.connects && s.connects[id].pc.Found?
    requires s.connects[id].session in s.sessions && s.sessions[s.connects[id].session].open
    ensures Leads(s, u) && Succeeded(u, id, s.connects[id], k)
  {
    var c := s.connects[id];
    ReachableInv(s);
    assert ConnectInv(s, id);
    var t := AskStep(s, id);
    k := FreshNumber(t.calls.Keys + t.accepted.Keys);
    t := DialStep(s, t, id, c, k);
    t := ClaimStep(s, t, id, c, k);
    t := CheckStep(s, t, id, c, k);
    t := DeliverStep(s, t, id, c, k);
    u := FinishStep(s, t, id, c, k);
  }

  // ----- a listener can come in -----

  lemma ArriveStep(s: State, tag: string, auth: string, m: nat) returns (u: State)
    requires m !in s.sessions && tag !in s.managers
    requires tag in s.pwMap && s.pwMap[tag].Some? ==> auth == s.pwMap[tag].value
    ensures Leads(s, u) && m in u.sessions && u.sessions[m] == Session(tag, auth, SessionCleared, true, [])
    ensures u.managers == s.managers && u.connects == s.connects
  {
    Nowhere(s);
    Then(s, s, SessionArrive(m, tag, auth));
    var t := Apply(s, SessionArrive(m, tag, auth));
    Then(s, t, SessionCheck(m));
    u := Apply(t, SessionCheck(m));
  }

  /**
   * A listener with the password of its tag, or any if the tag has none, gets a manager session whenever the tag
   * is free; a connect through it then finds that session.
   */
  lemma ListenerCanRegister(s: State, tag: string, auth: string, id: string, kind: Kind, host: string, port: u16, pw: Option<string>)
    returns (u: State, m: nat)
    requires tag !in s.managers && id != "" && id !in s.connects
    requires tag in s.pwMap && s.pwMap[tag].Some? ==> auth == s.pwMap[tag].value
    requires if kind.Tcp? then host != "" else host == "" && port == 0
    ensures Leads(s, u) && tag in u.managers && u.managers[tag] == m && m in u.sessions && u.sessions[m].open
    ensures id in u.connects && u.connects[id].pc.Found? && u.connects[id].session == m
    ensures u.connects[id].host == host && u.connects[id].port == port && u.connects[id].kind == kind && u.connects[id].pw == pw
  {
    m := FreshNumber(s.sessions.Keys);
    var t := ArriveStep(s, tag, auth, m);
    Then(s, t, SessionRegister(m));
    var v := Apply(t, SessionRegister(m));
    var e := ConnectFind(id, kind, tag, host, port, pw);
    Then(s, v, e);
    u := Apply(v, e);
  }
}
