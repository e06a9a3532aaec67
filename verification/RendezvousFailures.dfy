/** Why a connect or udp_tunnel fails. */
module RendezvousFailures {
  import opened Common
  import opened Rendezvous
  import opened RendezvousSafety

  /** Some call carried this connect's conn_id, took its entry, and was refused for a password other than the connect's. */
  ghost predicate WrongCaller(s: State, id: string)
    requires id in s.connects
  {
    exists k :: k in s.calls && Spoiled(s.calls[k], id, s.connects[id])
  }

  predicate Spoiled(call: Call, id: string, c: Connect) {
    && call.connId == Some(id) && call.kind == c.kind
    && call.pc == Answered(BadAuth) && !PasswordOk(c.pw, call.auth)
  }

  predicate FailedWith(c: Connect, error: Error) {
    c.pc == Failing(error) || c.pc == Returned(Err(error))
  }

  /** What has become of a connect has its cause in the state. */
  ghost predicate Explained(s: State, id: string)
    requires id in s.connects
  {
    var c := s.connects[id];
    && ((c.sender.Dropped? && ReceiverAlive(c)) || FailedWith(c, ChannelClosed) ==> WrongCaller(s, id))
    && (FailedWith(c, SendFailed) ==> c.session in s.sessions && !s.sessions[c.session].open)
  }

  ghost predicate AllExplained(s: State) {
    forall id {:trigger Explained(s, id)} :: id in s.connects ==> Explained(s, id)
  }

  /** Answered calls, closed sessions and the fixed part of a connect never change. */
  ghost predicate Grows(s: State, t: State, id: string)
    requires id in s.connects && id in t.connects
  {
    && SameStatic(t.connects[id], s.connects[id])
    && (forall k <- s.calls :: s.calls[k].pc.Answered? ==> k in t.calls && t.calls[k] == s.calls[k])
    && (forall m <- s.sessions :: !s.sessions[m].open ==> m in t.sessions && !t.sessions[m].open)
  }

  predicate ByConnect(e: Event) {
    e.ConnectFind? || e.ConnectRegister? || e.ConnectSend? || e.ConnectReceive? || e.ConnectClosed? || e.ConnectTimeout? || e.ConnectRemove?
  }

  predicate ByHandler(e: Event) {
    e.CallClaim? || e.CallCheck? || e.CallDeliver?
  }

  /** Only connect i may have changed, and of it only the state and the sender. */
  ghost predicate OneConnect(s: State, t: State, i: string) {
    && t.connects.Keys == s.connects.Keys + {i}
    && (forall id <- s.connects :: id != i ==> t.connects[id] == s.connects[id])
    && (i in s.connects ==> SameStatic(t.connects[i], s.connects[i]))
  }

  lemma ConnectSendShape(s: State, e: Event)
    requires Enabled(s, e) && e.ConnectSend?
    ensures OneConnect(s, Apply(s, e), e.id) && Apply(s, e).calls == s.calls
    ensures forall m <- s.sessions :: m in Apply(s, e).sessions && Apply(s, e).sessions[m].open == s.sessions[m].open
  {
    assert Apply(s, e).connects == s.connects[e.id := Apply(s, e).connects[e.id]];
  }

  lemma ConnectStartShape(s: State, e: Event)
    requires Enabled(s, e) && (e.ConnectFind? || e.ConnectRegister?)
    ensures OneConnect(s, Apply(s, e), e.id) && Apply(s, e).calls == s.calls && Apply(s, e).sessions == s.sessions
  {
  }

  lemma ConnectEndShape(s: State, e: Event)
    requires Enabled(s, e) && (e.ConnectReceive? || e.ConnectClosed? || e.ConnectTimeout?)
    ensures OneConnect(s, Apply(s, e), e.id) && Apply(s, e).calls == s.calls && Apply(s, e).sessions == s.sessions
  {
  }

  lemma ConnectRemoveShape(s: State, e: Event)
    requires Enabled(s, e) && e.ConnectRemove?
    ensures OneConnect(s, Apply(s, e), e.id) && Apply(s, e).calls == s.calls && Apply(s, e).sessions == s.sessions
  {
    assert Apply(s, e).connects == s.connects[e.id := Apply(s, e).connects[e.id]];
  }

  lemma ByConnectGrows(s: State, e: Event, id: string)
    requires Enabled(s, e) && ByConnect(e)
    ensures id in Apply(s, e).connects ==> id in s.connects || id == e.id
    ensures id in s.connects ==> id in Apply(s, e).connects && Grows(s, Apply(s, e), id)
    ensures id in s.connects && id != e.id ==> Apply(s, e).connects[id] == s.connects[id]
  {
    if e.ConnectSend? {
      ConnectSendShape(s, e);
    } else if e.ConnectFind? || e.ConnectRegister? {
      ConnectStartShape(s, e);
    } else if e.ConnectRemove? {
      ConnectRemoveShape(s, e);
    } else {
      ConnectEndShape(s, e);
    }
  }

  /** A handler's step changes its own call, which it has not answered, and at most one sender. */
  ghost predicate HandlerShape(s: State, t: State, c: nat)
    requires c in s.calls
  {
    && t.sessions == s.sessions && c in t.calls && t.calls == s.calls[c := t.calls[c]]
    && t.connects.Keys == s.connects.Keys
    && (forall id <- s.connects :: t.connects[id] == s.connects[id].(sender := t.connects[id].sender))
  }

  /** Moving a sender keeps that shape. */
  lemma SenderShape(s: State, t: State, c: nat, i: string, sender: Sender)
    requires c in s.calls && HandlerShape(s, t, c) && i in t.connects
    ensures HandlerShape(s, WithSender(t, i, sender), c)
  {
  }

  lemma CallShape(s: State, c: nat, pc: CallPc, pending: map<Slot, Pending>)
    requires c in s.calls
    ensures HandlerShape(s, WithCall(s, c, pc), c) && HandlerShape(s, WithCall(s, c, pc).(pending := pending), c)
  {
  }

  lemma ClaimShape(s: State, c: nat)
    requires c in s.calls
    ensures HandlerShape(s, Claim(s, c), c)
  {
    var call := s.calls[c];
    CallShape(s, c, Answered(MissingId), s.pending);
    CallShape(s, c, Answered(NotFound), s.pending);
    if call.connId.Some? && Slot(call.kind, call.connId.value) in s.pending {
      var slot := Slot(call.kind, call.connId.value);
      CallShape(s, c, Claimed(s.pending[slot]), s.pending - {slot});
      if slot.connId in s.connects {
        SenderShape(s, WithCall(s, c, Claimed(s.pending[slot])).(pending := s.pending - {slot}), c, slot.connId, HeldBy(c));
      }
    }
  }

  lemma CheckShape(s: State, c: nat)
    requires c in s.calls && s.calls[c].pc.Claimed? && s.calls[c].connId.Some? && s.calls[c].connId.value in s.connects
    ensures HandlerShape(s, Check(s, c), c)
  {
    CallShape(s, c, Cleared(s.calls[c].pc.pending), s.pending);
    CallShape(s, c, Answered(BadAuth), s.pending);
    SenderShape(s, WithCall(s, c, Answered(BadAuth)), c, s.calls[c].connId.value, Dropped);
  }

  lemma DeliverShape(s: State, c: nat)
    requires c in s.calls && s.calls[c].pc.Cleared? && s.calls[c].connId.Some? && s.calls[c].connId.value in s.connects
    ensures HandlerShape(s, Deliver(s, c), c)
  {
    var i, p := s.calls[c].connId.value, s.calls[c].pc.pending;
    CallShape(s, c, Answered(Delivered), s.pending);
    CallShape(s, c, Answered(ReceiverGone), s.pending);
    SenderShape(s, WithCall(s, c, Answered(Delivered)), c, i, Sent(RevStream(c, p.host, p.port)));
    SenderShape(s, WithCall(s, c, Answered(ReceiverGone)), c, i, Dropped);
  }

  lemma ByHandlerGrows(s: State, e: Event, id: string)
    requires Enabled(s, e) && ByHandler(e)
    ensures Apply(s, e).connects.Keys == s.connects.Keys
    ensures id in s.connects ==> Grows(s, Apply(s, e), id) && Apply(s, e).connects[id].pc == s.connects[id].pc
  {
    if e.CallClaim? {
      ClaimShape(s, e.c);
    } else if e.CallCheck? {
      CheckShape(s, e.c);
    } else {
      DeliverShape(s, e.c);
    }
  }

  lemma NewCallGrows(s: State, e: Event, id: string)
    requires Enabled(s, e) && (e.CallArrive? || e.Dial? || e.ListenerAccept?)
    ensures Apply(s, e).connects == s.connects && (id in s.connects ==> Grows(s, Apply(s, e), id))
  {
  }

  lemma SessionKeepsCalls(s: State, e: Event)
    requires Enabled(s, e) && !ByConnect(e) && !ByHandler(e) && !e.CallArrive? && !e.Dial? && !e.ListenerAccept?
    ensures Apply(s, e).calls == s.calls && Apply(s, e).connects == s.connects
  {
  }

  lemma ClosedStaysClosed(s: State, e: Event, m: nat)
    requires Enabled(s, e) && !ByConnect(e) && !ByHandler(e) && !e.CallArrive? && !e.Dial? && !e.ListenerAccept?
    requires m in s.sessions && !s.sessions[m].open
    ensures m in Apply(s, e).sessions && !Apply(s, e).sessions[m].open
  {
    if m != e.m { assert Apply(s, e).sessions == s.sessions[e.m := Apply(s, e).sessions[e.m]]; }
  }

  lemma BySessionGrows(s: State, e: Event, id: string)
    requires Enabled(s, e) && !ByConnect(e) && !ByHandler(e) && !e.CallArrive? && !e.Dial? && !e.ListenerAccept?
    ensures Apply(s, e).connects == s.connects && (id in s.connects ==> Grows(s, Apply(s, e), id))
  {
    SessionKeepsCalls(s, e);
    forall m <- s.sessions | !s.sessions[m].open ensures m in Apply(s, e).sessions && !Apply(s, e).sessions[m].open {
      ClosedStaysClosed(s, e, m);
    }
  }

  lemma WrongCallerStays(s: State, t: State, id: string)
    requires id in s.connects && id in t.connects && Grows(s, t, id) && WrongCaller(s, id)
    ensures WrongCaller(t, id)
  {
    var k :| k in s.calls && Spoiled(s.calls[k], id, s.connects[id]);
    assert k in t.calls && Spoiled(t.calls[k], id, t.connects[id]);
  }

  /** A connect whose state and sender stay as they are stays explained. */
  lemma StillExplained(s: State, t: State, id: string)
    requires id in s.connects && id in t.connects && Grows(s, t, id) && Explained(s, id)
    requires t.connects[id] == s.connects[id]
    ensures Explained(t, id)
  {
    if WrongCaller(s, id) { WrongCallerStays(s, t, id); }
  }

  lemma NewConnectExplained(s: State, e: Event)
    requires Enabled(s, e) && e.ConnectFind?
    ensures Explained(Apply(s, e), e.id)
  {
  }

  lemma SendOutcome(s: State, e: Event)
    requires Enabled(s, e) && e.ConnectSend?
    ensures var d := Apply(s, e).connects[e.id];
      && d.sender == s.connects[e.id].sender && ReceiverAlive(s.connects[e.id]) && !FailedWith(d, ChannelClosed)
      && (FailedWith(d, SendFailed) ==> !s.sessions[s.connects[e.id].session].open)
  {
  }

  /** What a connect's own events do to it, as far as its failure goes. */
  lemma OwnOutcome(s: State, e: Event)
    requires Inv(s) && Enabled(s, e) && ByConnect(e) && !e.ConnectFind?
    ensures e.id in s.connects && e.id in Apply(s, e).connects
    ensures var c, d := s.connects[e.id], Apply(s, e).connects[e.id];
      && (d.sender.Dropped? && ReceiverAlive(d) ==> c.sender.Dropped? && ReceiverAlive(c))
      && (FailedWith(d, ChannelClosed) ==> FailedWith(c, ChannelClosed) || (c.sender.Dropped? && ReceiverAlive(c)))
      && (FailedWith(d, SendFailed) ==>
          FailedWith(c, SendFailed) || (c.session in s.sessions && !s.sessions[c.session].open))
  {
    if e.ConnectSend? { SendOutcome(s, e); }
  }

  lemma OwnEventExplained(s: State, e: Event)
    requires Inv(s) && Enabled(s, e) && ByConnect(e) && !e.ConnectFind? && e.id in s.connects && Explained(s, e.id)
    ensures e.id in Apply(s, e).connects && Explained(Apply(s, e), e.id)
  {
    OwnOutcome(s, e);
    ByConnectGrows(s, e, e.id);
    if WrongCaller(s, e.id) { WrongCallerStays(s, Apply(s, e), e.id); }
  }

  /** A sender is dropped while its connect still waits only for a wrong password. */
  lemma CheckSpoils(s: State, c: nat, id: string)
    requires Inv(s) && Enabled(s, CallCheck(c)) && id in s.connects && id in Check(s, c).connects
    requires Check(s, c).connects[id] != s.connects[id]
    ensures c in Check(s, c).calls && Spoiled(Check(s, c).calls[c], id, Check(s, c).connects[id])
  {
    assert CallInv(s, c);
  }

  lemma ClaimDropsNone(s: State, c: nat, id: string)
    requires c in s.calls && id in s.connects && id in Claim(s, c).connects && Claim(s, c).connects[id].sender.Dropped?
    ensures s.connects[id].sender.Dropped?
  {
  }

  lemma DeliverDropsNoneWaiting(s: State, c: nat, id: string)
    requires c in s.calls && s.calls[c].pc.Cleared? && s.calls[c].connId.Some? && s.calls[c].connId.value in s.connects
    requires id in s.connects && id in Deliver(s, c).connects
    requires Deliver(s, c).connects[id].sender.Dropped? && ReceiverAlive(s.connects[id])
    ensures s.connects[id].sender.Dropped?
  {
  }

  /** A handler's events on any connect. */
  lemma HandlerEventExplained(s: State, e: Event, id: string)
    requires Inv(s) && Enabled(s, e) && ByHandler(e) && id in s.connects && Explained(s, id)
    ensures id in Apply(s, e).connects && Explained(Apply(s, e), id)
  {
    var t := Apply(s, e);
    ByHandlerGrows(s, e, id);
    if WrongCaller(s, id) {
      WrongCallerStays(s, t, id);
    } else if t.connects[id].sender.Dropped? && ReceiverAlive(t.connects[id]) {
      if e.CallClaim? {
        ClaimDropsNone(s, e.c, id);
      } else if e.CallDeliver? {
        DeliverDropsNoneWaiting(s, e.c, id);
      } else if t.connects[id] != s.connects[id] {
        CheckSpoils(s, e.c, id);
      }
    }
  }

  lemma ByConnectExplained(s: State, e: Event, id: string)
    requires Inv(s) && AllExplained(s) && Enabled(s, e) && ByConnect(e) && id in Apply(s, e).connects
    ensures Explained(Apply(s, e), id)
  {
    ByConnectGrows(s, e, id);
    if id != e.id {
      assert Explained(s, id);
      StillExplained(s, Apply(s, e), id);
    } else if e.ConnectFind? {
      NewConnectExplained(s, e);
    } else {
      OwnOutcome(s, e);
      assert Explained(s, id);
      OwnEventExplained(s, e);
    }
  }

  lemma ExplainedKept(s: State, e: Event, id: string)
    requires Inv(s) && AllExplained(s) && Enabled(s, e) && id in Apply(s, e).connects
    ensures Explained(Apply(s, e), id)
  {
    if ByConnect(e) {
      ByConnectExplained(s, e, id);
    } else if ByHandler(e) {
      ByHandlerGrows(s, e, id);
      assert Explained(s, id);
      HandlerEventExplained(s, e, id);
    } else {
      if e.CallArrive? || e.Dial? || e.ListenerAccept? { NewCallGrows(s, e, id); } else { BySessionGrows(s, e, id); }
      assert Explained(s, id);
      StillExplained(s, Apply(s, e), id);
    }
  }

  lemma {:induction false} RunKeepsExplained(s: State, run: seq<Event>)
    requires Inv(s) && AllExplained(s) && Legal(s, run)
    ensures AllExplained(Exec(s, run))
    decreases |run|
  {
    if run != [] {
      var t := Apply(s, run[0]);
      InvKept(s, run[0]);
      forall id <- t.connects ensures Explained(t, id) {
        ExplainedKept(s, run[0], id);
      }
      RunKeepsExplained(t, run[1..]);
    }
  }

  /**
   * A connect or udp_tunnel that fails because its channel closed was claimed by a call with its own conn_id and
   * a wrong password; one that fails to send had found a session whose receiving end is gone. Every other
   * failure is a timeout.
   */
  lemma FailureHasCause(s: State, id: string)
    requires Reachable(s) && id in s.connects && s.connects[id].pc.Returned? && s.connects[id].pc.result.Err?
    ensures match s.connects[id].pc.result.error
      case ChannelClosed =>
        exists k :: k in s.calls && s.calls[k].connId == Some(id) && s.calls[k].kind == s.connects[id].kind
          && s.connects[id].pw.Some? && s.calls[k].auth != s.connects[id].pw.value
      case SendFailed => s.connects[id].session in s.sessions && !s.sessions[s.connects[id].session].open
      case TimedOut => true
  {
    var run :| Legal(Init(s.pwMap), run) && Exec(Init(s.pwMap), run) == s;
    InitInv(s.pwMap);
    RunKeepsExplained(Init(s.pwMap), run);
    assert Explained(s, id);
    if s.connects[id].pc.result.error.ChannelClosed? {
      var k :| k in s.calls && Spoiled(s.calls[k], id, s.connects[id]);
      assert s.calls[k].connId == Some(id);
    }
  }

  // ----- what a wrong password does -----

  /** A call refused for its password has used its connect's sender up. */
  ghost predicate RefusalSpent(s: State, k: nat)
    requires k in s.calls
  {
    s.calls[k].pc == Answered(BadAuth) ==>
      && s.calls[k].connId.Some? && s.calls[k].connId.value in s.connects
      && s.connects[s.calls[k].connId.value].sender.Dropped?
  }

  ghost predicate AllSpent(s: State) {
    forall k {:trigger RefusalSpent(s, k)} :: k in s.calls ==> RefusalSpent(s, k)
  }

  lemma OwnDroppedStays(s: State, e: Event)
    requires Inv(s) && Enabled(s, e) && ByConnect(e) && e.id in s.connects && s.connects[e.id].sender.Dropped?
    ensures e.id in Apply(s, e).connects && Apply(s, e).connects[e.id].sender.Dropped?
  {
    assert ConnectInv(s, e.id);
  }

  lemma CheckLeavesDropped(s: State, c: nat, id: string)
    requires Enabled(s, CallCheck(c)) && id in s.connects && s.connects[id].sender.Dropped? && id in Check(s, c).connects
    ensures Check(s, c).connects[id].sender.Dropped?
  {
  }

  /** A delivery touches the sender of its own connect only, which its handler still holds. */
  lemma DeliverTouchesOne(s: State, c: nat, id: string)
    requires c in s.calls && s.calls[c].pc.Cleared? && s.calls[c].connId.Some? && s.calls[c].connId.value in s.connects
    requires id in s.connects && id != s.calls[c].connId.value
    ensures id in Deliver(s, c).connects && Deliver(s, c).connects[id] == s.connects[id]
  {
  }

  lemma HandlerDroppedStays(s: State, e: Event, id: string)
    requires Inv(s) && Enabled(s, e) && ByHandler(e) && id in s.connects && s.connects[id].sender.Dropped?
    ensures id in Apply(s, e).connects && Apply(s, e).connects[id].sender.Dropped?
  {
    ByHandlerGrows(s, e, id);
    if e.CallClaim? {
      ClaimLeavesDropped(s, e.c, id);
    } else if e.CallCheck? {
      CheckLeavesDropped(s, e.c, id);
    } else {
      assert CallInv(s, e.c);
      DeliverTouchesOne(s, e.c, id);
    }
  }

  lemma ClaimLeavesDropped(s: State, c: nat, id: string)
    requires Inv(s) && c in s.calls && id in s.connects && s.connects[id].sender.Dropped? && id in Claim(s, c).connects
    ensures Claim(s, c).connects[id].sender.Dropped?
  {
    assert ConnectInv(s, id);
    assert Slot(s.calls[c].kind, id) !in s.pending;
  }

  lemma DroppedStays(s: State, e: Event, id: string)
    requires Inv(s) && Enabled(s, e) && id in s.connects && s.connects[id].sender.Dropped?
    ensures id in Apply(s, e).connects && Apply(s, e).connects[id].sender.Dropped?
  {
    if ByHandler(e) {
      HandlerDroppedStays(s, e, id);
    } else if ByConnect(e) {
      ByConnectGrows(s, e, id);
      if e.id == id { OwnDroppedStays(s, e); }
    } else if e.CallArrive? || e.Dial? || e.ListenerAccept? {
      NewCallGrows(s, e, id);
    } else {
      BySessionGrows(s, e, id);
    }
  }

  lemma ClaimRefusesNone(s: State, c: nat)
    requires c in s.calls
    ensures c in Claim(s, c).calls && Claim(s, c).calls[c].pc != Answered(BadAuth)
  {
    var call := s.calls[c];
    if call.connId.Some? && call.connId.value != "" && Slot(call.kind, call.connId.value) in s.pending {
      var slot := Slot(call.kind, call.connId.value);
      var t := WithCall(s, c, Claimed(s.pending[slot])).(pending := s.pending - {slot});
      assert t.calls[c].pc.Claimed?;
      assert Claim(s, c).calls == t.calls;
    }
  }

  lemma DeliverRefusesNone(s: State, c: nat)
    requires c in s.calls && s.calls[c].pc.Cleared? && s.calls[c].connId.Some? && s.calls[c].connId.value in s.connects
    ensures c in Deliver(s, c).calls && Deliver(s, c).calls[c].pc != Answered(BadAuth)
  {
  }

  lemma HandlerRefusesByCheck(s: State, e: Event, k: nat)
    requires Enabled(s, e) && ByHandler(e) && k in Apply(s, e).calls && Apply(s, e).calls[k].pc == Answered(BadAuth)
    requires !(e.CallCheck? && e.c == k)
    ensures k in s.calls && s.calls[k] == Apply(s, e).calls[k]
  {
    if e.CallClaim? {
      ClaimShape(s, e.c);
      ClaimRefusesNone(s, e.c);
    } else if e.CallCheck? {
      CheckShape(s, e.c);
    } else {
      DeliverShape(s, e.c);
      DeliverRefusesNone(s, e.c);
    }
  }

  lemma NewCallIsNotRefused(s: State, e: Event, k: nat)
    requires Enabled(s, e) && (e.CallArrive? || e.Dial? || e.ListenerAccept?)
    requires k in Apply(s, e).calls && Apply(s, e).calls[k].pc == Answered(BadAuth)
    ensures k in s.calls && s.calls[k] == Apply(s, e).calls[k]
  {
  }

  /** A call is refused for its password by its check and no other event. */
  lemma RefusedByCheck(s: State, e: Event, k: nat)
    requires Enabled(s, e) && k in Apply(s, e).calls && Apply(s, e).calls[k].pc == Answered(BadAuth)
    requires !(e.CallCheck? && e.c == k)
    ensures k in s.calls && s.calls[k] == Apply(s, e).calls[k]
  {
    if ByHandler(e) {
      HandlerRefusesByCheck(s, e, k);
    } else if ByConnect(e) {
      ByConnectKeepsCalls(s, e);
    } else if e.CallArrive? || e.Dial? || e.ListenerAccept? {
      NewCallIsNotRefused(s, e, k);
    } else {
      SessionKeepsCalls(s, e);
    }
  }

  lemma ByConnectKeepsCalls(s: State, e: Event)
    requires Enabled(s, e) && ByConnect(e)
    ensures Apply(s, e).calls == s.calls
  {
    if e.ConnectSend? {
      ConnectSendShape(s, e);
    } else if e.ConnectFind? || e.ConnectRegister? {
      ConnectStartShape(s, e);
    } else if e.ConnectRemove? {
      ConnectRemoveShape(s, e);
    } else {
      ConnectEndShape(s, e);
    }
  }

  lemma CheckSpends(s: State, c: nat)
    requires Enabled(s, CallCheck(c)) && c in Check(s, c).calls && Check(s, c).calls[c].pc == Answered(BadAuth)
    ensures RefusalSpent(Check(s, c), c)
  {
  }

  lemma SpentKept(s: State, e: Event, k: nat)
    requires Inv(s) && AllSpent(s) && Enabled(s, e) && k in Apply(s, e).calls
    ensures RefusalSpent(Apply(s, e), k)
  {
    if Apply(s, e).calls[k].pc == Answered(BadAuth) {
      if e.CallCheck? && e.c == k {
        CheckSpends(s, k);
      } else {
        RefusedByCheck(s, e, k);
        assert RefusalSpent(s, k);
        DroppedStays(s, e, s.calls[k].connId.value);
      }
    }
  }

  lemma {:induction false} RunKeepsSpent(s: State, run: seq<Event>)
    requires Inv(s) && AllSpent(s) && Legal(s, run)
    ensures AllSpent(Exec(s, run))
    decreases |run|
  {
    if run != [] {
      var t := Apply(s, run[0]);
      InvKept(s, run[0]);
      forall k <- t.calls ensures RefusalSpent(t, k) {
        SpentKept(s, run[0], k);
      }
      RunKeepsSpent(t, run[1..]);
    }
  }

  lemma {:induction false} RunKeepsDropped(s: State, run: seq<Event>, id: string)
    requires Inv(s) && Legal(s, run) && id in s.connects && s.connects[id].sender.Dropped?
    ensures Inv(Exec(s, run)) && id in Exec(s, run).connects && Exec(s, run).connects[id].sender.Dropped?
    decreases |run|
  {
    if run != [] {
      InvKept(s, run[0]);
      DroppedStays(s, run[0], id);
      RunKeepsDropped(Apply(s, run[0]), run[1..], id);
    }
  }

  /**
   * One call with a connect's conn_id and a wrong password ends that connect: its sender is gone, and however
   * the run goes on it never returns a stream.
   */
  lemma WrongCallerEndsConnect(s: State, run: seq<Event>, id: string)
    requires Reachable(s) && id in s.connects && WrongCaller(s, id) && Legal(s, run)
    ensures s.connects[id].sender.Dropped?
    ensures id in Exec(s, run).connects
    ensures Exec(s, run).connects[id].pc.Returned? ==> Exec(s, run).connects[id].pc.result.Err?
  {
    var before :| Legal(Init(s.pwMap), before) && Exec(Init(s.pwMap), before) == s;
    InitInv(s.pwMap);
    RunKeepsSpent(Init(s.pwMap), before);
    var k :| k in s.calls && Spoiled(s.calls[k], id, s.connects[id]);
    assert RefusalSpent(s, k);
    ReachableInv(s);
    RunKeepsDropped(s, run, id);
    assert ConnectInv(Exec(s, run), id);
  }
}
