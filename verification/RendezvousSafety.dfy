/** What every step of the rendezvous keeps, and the agreement and clean-up results over whole runs. */
module RendezvousSafety {
  import opened Common
  import opened Rendezvous

  /** A registered connect's oneshot sender is in the table, in one handler, or used up. */
  ghost predicate ConnectInv(s: State, id: string)
    requires id in s.connects
  {
    var c := s.connects[id];
    && id != ""
    && c.session in s.sessions && s.sessions[c.session].tag == c.tag
    && s.sessions[c.session].pc in {Inserted, Draining, Gone}
    && (c.pc.Found? <==> c.sender.Unregistered?)
    && (c.sender.InTable? <==> Slot(c.kind, id) in s.pending)
    && (c.sender.InTable? ==> s.pending[Slot(c.kind, id)] == PendingOf(c) && !c.pc.Returned?)
    && (c.sender.HeldBy? ==> Holds(s, c.sender.call, id))
    && (c.sender.Sent? ==> Agrees(s, id, c.sender.stream))
    && (c.pc.Returned? && c.pc.result.Ok? ==> c.sender == Sent(c.pc.result.stream))
  }

  /** Call k has taken connect id's entry and not answered yet. */
  ghost predicate Holds(s: State, k: nat, id: string) {
    && k in s.calls
    && s.calls[k].connId == Some(id)
    && (s.calls[k].pc.Claimed? || s.calls[k].pc.Cleared?)
  }

  /** The stream was made by a call that carried this connect's conn_id and password, for its address. */
  ghost predicate Agrees(s: State, id: string, stream: RevStream)
    requires id in s.connects
  {
    var c := s.connects[id];
    && stream.call in s.calls
    && s.calls[stream.call].connId == Some(id)
    && s.calls[stream.call].kind == c.kind
    && PasswordOk(c.pw, s.calls[stream.call].auth)
    && s.calls[stream.call].pc == Answered(Delivered)
    && stream.host == c.host && stream.port == c.port
  }

  ghost predicate CallInv(s: State, k: nat)
    requires k in s.calls
  {
    var call := s.calls[k];
    && (call.pc.Claimed? || call.pc.Cleared? ==>
        && call.connId.Some? && call.connId.value in s.connects
        && s.connects[call.connId.value].kind == call.kind
        && s.connects[call.connId.value].sender == HeldBy(k)
        && call.pc.pending == PendingOf(s.connects[call.connId.value])
        && (call.pc.Cleared? ==> PasswordOk(call.pc.pending.pw, call.auth)))
    && (call.pc == Answered(Delivered) ==>
        && call.connId.Some? && call.connId.value in s.connects
        && s.connects[call.connId.value].sender.Sent?
        && s.connects[call.connId.value].sender.stream.call == k)
    && (call.origin.Some? ==>
        && call.connId == Some(call.origin.value.connId)
        && call.connId.value in s.connects
        && s.connects[call.connId.value].kind == call.kind
        && call.origin.value == RequestOf(call.connId.value, s.connects[call.connId.value]))
  }

  ghost predicate SessionInv(s: State, m: nat)
    requires m in s.sessions
  {
    var session := s.sessions[m];
    && (session.pc.Inserted? || session.pc.Draining? ==> session.tag in s.managers && s.managers[session.tag] == m)
    && (session.pc in {SessionCleared, Inserted, Draining, Gone} ==> PasswordOk(TagPassword(s, session.tag), session.auth))
    && (forall i {:trigger RequestInv(s, m, session.queue[i])} :: 0 <= i < |session.queue| ==> RequestInv(s, m, session.queue[i]))
  }

  /** A queued request is the one its connect made, and sits in the session that connect found. */
  ghost predicate RequestInv(s: State, m: nat, req: ManagerRes) {
    && req.connId in s.connects
    && req == RequestOf(req.connId, s.connects[req.connId])
    && s.connects[req.connId].session == m
  }

  ghost predicate ManagersInv(s: State) {
    forall tag <- s.managers ::
      && s.managers[tag] in s.sessions
      && s.sessions[s.managers[tag]].tag == tag
      && s.sessions[s.managers[tag]].pc in {Inserted, Draining}
  }

  ghost predicate PendingInv(s: State) {
    forall slot <- s.pending :: slot.connId in s.connects && s.connects[slot.connId].kind == slot.kind
  }

  ghost predicate AcceptedInv(s: State) {
    forall k <- s.accepted ::
      && k in s.calls && s.calls[k].connId.Some? && s.calls[k].connId.value in s.connects
      && s.accepted[k] == RunAddr(s.connects[s.calls[k].connId.value].host, s.connects[s.calls[k].connId.value].port, false)
  }

  ghost predicate Inv(s: State) {
    && (forall id {:trigger ConnectInv(s, id)} :: id in s.connects ==> ConnectInv(s, id))
    && (forall k {:trigger CallInv(s, k)} :: k in s.calls ==> CallInv(s, k))
    && (forall m {:trigger SessionInv(s, m)} :: m in s.sessions ==> SessionInv(s, m))
    && ManagersInv(s) && PendingInv(s) && AcceptedInv(s)
  }

  lemma InitInv(pwMap: map<string, Option<string>>)
    ensures Inv(Init(pwMap))
  {
  }

  // ----- what an untouched connect, call or session needs from the rest of the state -----

  lemma ConnectFrame(s: State, t: State, id: string)
    requires id in s.connects && id in t.connects && t.connects[id] == s.connects[id] && ConnectInv(s, id)
    requires t.connects[id].session in t.sessions
    requires t.sessions[t.connects[id].session].tag == s.sessions[t.connects[id].session].tag
    requires t.sessions[t.connects[id].session].pc in {Inserted, Draining, Gone}
    requires var slot := Slot(t.connects[id].kind, id);
      (slot in t.pending <==> slot in s.pending) && (slot in s.pending ==> t.pending[slot] == s.pending[slot])
    requires t.connects[id].sender.HeldBy? ==>
      t.connects[id].sender.call in t.calls && t.calls[t.connects[id].sender.call] == s.calls[t.connects[id].sender.call]
    requires t.connects[id].sender.Sent? ==>
      t.connects[id].sender.stream.call in t.calls
      && t.calls[t.connects[id].sender.stream.call] == s.calls[t.connects[id].sender.stream.call]
    ensures ConnectInv(t, id)
  {
  }

  predicate SameStatic(c: Connect, d: Connect) {
    c.kind == d.kind && c.tag == d.tag && c.host == d.host && c.port == d.port && c.pw == d.pw && c.session == d.session
  }

  lemma CallFrame(s: State, t: State, k: nat)
    requires k in s.calls && k in t.calls && t.calls[k] == s.calls[k] && CallInv(s, k)
    requires t.calls[k].connId.Some? && t.calls[k].connId.value in s.connects ==>
      && t.calls[k].connId.value in t.connects
      && SameStatic(t.connects[t.calls[k].connId.value], s.connects[t.calls[k].connId.value])
      && (s.connects[t.calls[k].connId.value].sender == HeldBy(k)
          || (s.connects[t.calls[k].connId.value].sender.Sent? && s.connects[t.calls[k].connId.value].sender.stream.call == k)
          ==> t.connects[t.calls[k].connId.value].sender == s.connects[t.calls[k].connId.value].sender)
    ensures CallInv(t, k)
  {
  }

  predicate ConnectsKept(s: State, t: State) {
    forall id <- s.connects :: id in t.connects && SameStatic(t.connects[id], s.connects[id])
  }

  lemma RequestFrame(s: State, t: State, m: nat, req: ManagerRes)
    requires RequestInv(s, m, req) && ConnectsKept(s, t)
    ensures RequestInv(t, m, req)
  {
    assert SameStatic(t.connects[req.connId], s.connects[req.connId]);
  }

  lemma SessionFrame(s: State, t: State, m: nat)
    requires m in s.sessions && m in t.sessions && t.sessions[m] == s.sessions[m] && SessionInv(s, m)
    requires ConnectsKept(s, t) && t.pwMap == s.pwMap
    requires s.sessions[m].pc.Inserted? || s.sessions[m].pc.Draining? ==>
      s.sessions[m].tag in t.managers && t.managers[s.sessions[m].tag] == m
    ensures SessionInv(t, m)
  {
    forall i | 0 <= i < |t.sessions[m].queue| ensures RequestInv(t, m, t.sessions[m].queue[i]) {
      assert RequestInv(s, m, s.sessions[m].queue[i]);
      RequestFrame(s, t, m, s.sessions[m].queue[i]);
    }
  }

  // ----- session events -----

  /** Session m takes a new value; the other tables but managers are untouched. */
  lemma SessionUpdateKept(s: State, m: nat, v: Session, managers: map<string, nat>)
    requires Inv(s)
    requires var t := s.(sessions := s.sessions[m := v], managers := managers); SessionInv(t, m) && ManagersInv(t)
    requires m in s.sessions ==> v.tag == s.sessions[m].tag
    requires m in s.sessions && s.sessions[m].pc in {Inserted, Draining, Gone} ==> v.pc in {Inserted, Draining, Gone}
    requires forall tag <- s.managers :: s.managers[tag] != m ==> tag in managers && managers[tag] == s.managers[tag]
    ensures Inv(s.(sessions := s.sessions[m := v], managers := managers))
  {
    var t := s.(sessions := s.sessions[m := v], managers := managers);
    forall id <- t.connects ensures ConnectInv(t, id) {
      assert ConnectInv(s, id);
      ConnectFrame(s, t, id);
    }
    forall k <- t.calls ensures CallInv(t, k) {
      assert CallInv(s, k);
      CallFrame(s, t, k);
    }
    forall j <- t.sessions ensures SessionInv(t, j) {
      if j != m {
        assert SessionInv(s, j);
        SessionFrame(s, t, j);
      }
    }
  }

  lemma SessionOwn(s: State, m: nat, v: Session, managers: map<string, nat>)
    requires Inv(s) && m in s.sessions && v.tag == s.sessions[m].tag && v.queue == s.sessions[m].queue
    requires v.pc.Inserted? || v.pc.Draining? ==> v.tag in managers && managers[v.tag] == m
    requires v.pc in {SessionCleared, Inserted, Draining, Gone} ==> PasswordOk(TagPassword(s, v.tag), v.auth)
    ensures SessionInv(s.(sessions := s.sessions[m := v], managers := managers), m)
  {
    var t := s.(sessions := s.sessions[m := v], managers := managers);
    assert SessionInv(s, m);
    forall i | 0 <= i < |v.queue| ensures RequestInv(t, m, v.queue[i]) {
      assert RequestInv(s, m, s.sessions[m].queue[i]);
      RequestFrame(s, t, m, v.queue[i]);
    }
  }

  lemma SessionArriveKept(s: State, e: Event)
    requires Inv(s) && Enabled(s, e) && e.SessionArrive?
    ensures Inv(Apply(s, e))
  {
    SessionUpdateKept(s, e.m, Apply(s, e).sessions[e.m], s.managers);
  }

  lemma SessionTableEventKept(s: State, e: Event)
    requires Inv(s) && Enabled(s, e) && (e.SessionRegister? || e.SessionEnd?)
    ensures Inv(Apply(s, e))
  {
    var t := Apply(s, e);
    assert SessionInv(s, e.m);
    SessionOwn(s, e.m, t.sessions[e.m], t.managers);
    SessionUpdateKept(s, e.m, t.sessions[e.m], t.managers);
  }

  lemma SessionEventKept(s: State, e: Event)
    requires Inv(s) && Enabled(s, e) && (e.SessionCheck? || e.SessionDrain? || e.SessionDropReceiver?)
    ensures Inv(Apply(s, e))
  {
    var v := Apply(s, e).sessions[e.m];
    assert SessionInv(s, e.m);
    SessionOwn(s, e.m, v, s.managers);
    SessionUpdateKept(s, e.m, v, s.managers);
  }

  // ----- connect events -----

  /** Connect id takes a new value, and its slot of pending a new entry, without touching a sender a handler has. */
  lemma ConnectUpdateKept(s: State, id: string, v: Connect, pending: map<Slot, Pending>)
    requires Inv(s)
    requires var t := s.(connects := s.connects[id := v], pending := pending); ConnectInv(t, id) && PendingInv(t)
    requires id in s.connects ==> SameStatic(v, s.connects[id])
    requires id in s.connects && (s.connects[id].sender.HeldBy? || s.connects[id].sender.Sent?) ==> v.sender == s.connects[id].sender
    requires forall slot: Slot :: slot.connId != id ==>
      (slot in pending <==> slot in s.pending) && (slot in s.pending ==> pending[slot] == s.pending[slot])
    ensures Inv(s.(connects := s.connects[id := v], pending := pending))
  {
    var t := s.(connects := s.connects[id := v], pending := pending);
    forall i <- t.connects ensures ConnectInv(t, i) {
      if i != id {
        assert ConnectInv(s, i);
        ConnectFrame(s, t, i);
      }
    }
    forall k <- t.calls ensures CallInv(t, k) {
      assert CallInv(s, k);
      CallFrame(s, t, k);
    }
    forall m <- t.sessions ensures SessionInv(t, m) {
      assert SessionInv(s, m);
      SessionFrame(s, t, m);
    }
  }

  lemma ConnectPcKept(s: State, id: string, pc: ConnectPc)
    requires Inv(s) && id in s.connects && s.connects[id].pc.Registered? && (pc.Waiting? || pc.Failing?)
    ensures Inv(WithConnect(s, id, pc))
  {
    assert ConnectInv(s, id);
    ConnectUpdateKept(s, id, s.connects[id].(pc := pc), s.pending);
  }

  lemma RequestQueuedKept(s: State, id: string)
    requires Inv(s) && id in s.connects && s.connects[id].session in s.sessions
    ensures var m := s.connects[id].session;
      Inv(s.(sessions := s.sessions[m := s.sessions[m].(queue := s.sessions[m].queue + [RequestOf(id, s.connects[id])])]))
  {
    var m := s.connects[id].session;
    var session := s.sessions[m];
    var v := session.(queue := session.queue + [RequestOf(id, s.connects[id])]);
    var t := s.(sessions := s.sessions[m := v], managers := s.managers);
    assert ConnectInv(s, id);
    assert SessionInv(s, m);
    forall i | 0 <= i < |v.queue| ensures RequestInv(t, m, v.queue[i]) {
      if i < |session.queue| {
        assert RequestInv(s, m, session.queue[i]);
      }
    }
    SessionUpdateKept(s, m, v, s.managers);
  }

  lemma ConnectSendKept(s: State, e: Event)
    requires Inv(s) && Enabled(s, e) && e.ConnectSend?
    ensures Inv(Apply(s, e))
  {
    var c := s.connects[e.id];
    if s.sessions[c.session].open {
      ConnectPcKept(s, e.id, Waiting);
      RequestQueuedKept(WithConnect(s, e.id, Waiting), e.id);
    } else {
      ConnectPcKept(s, e.id, Failing(SendFailed));
    }
  }

  lemma ConnectFindKept(s: State, e: Event)
    requires Inv(s) && Enabled(s, e) && e.ConnectFind?
    ensures Inv(Apply(s, e))
  {
    var t := Apply(s, e);
    ConnectUpdateKept(s, e.id, t.connects[e.id], s.pending);
  }

  lemma ConnectRegisterKept(s: State, e: Event)
    requires Inv(s) && Enabled(s, e) && e.ConnectRegister?
    ensures Inv(Apply(s, e))
  {
    var t := Apply(s, e);
    assert ConnectInv(s, e.id);
    assert t == s.(connects := s.connects[e.id := t.connects[e.id]], pending := t.pending);
    assert t.connects[e.id].sender == InTable;
    ConnectUpdateKept(s, e.id, t.connects[e.id], t.pending);
  }

  /** The three ways waiting ends: a stream, a closed channel, a timeout. */
  lemma ConnectWaitKept(s: State, e: Event)
    requires Inv(s) && Enabled(s, e) && (e.ConnectReceive? || e.ConnectClosed? || e.ConnectTimeout?)
    ensures Inv(Apply(s, e))
  {
    assert ConnectInv(s, e.id);
    ConnectUpdateKept(s, e.id, Apply(s, e).connects[e.id], s.pending);
  }

  lemma EntryRemovedKept(s: State, id: string, v: Connect)
    requires Inv(s) && id in s.connects && s.connects[id].pc.Failing? && Slot(s.connects[id].kind, id) in s.pending
    requires v == s.connects[id].(pc := Returned(Err(s.connects[id].pc.error)), sender := Dropped)
    ensures Inv(s.(connects := s.connects[id := v], pending := s.pending - {Slot(v.kind, id)}))
  {
    assert ConnectInv(s, id);
    ConnectUpdateKept(s, id, v, s.pending - {Slot(v.kind, id)});
  }

  lemma NothingRemovedKept(s: State, id: string, v: Connect)
    requires Inv(s) && id in s.connects && s.connects[id].pc.Failing? && Slot(s.connects[id].kind, id) !in s.pending
    requires v == s.connects[id].(pc := Returned(Err(s.connects[id].pc.error)))
    ensures Inv(s.(connects := s.connects[id := v], pending := s.pending))
  {
    assert ConnectInv(s, id);
    ConnectUpdateKept(s, id, v, s.pending);
  }

  lemma ConnectRemoveKept(s: State, e: Event)
    requires Inv(s) && Enabled(s, e) && e.ConnectRemove?
    ensures Inv(Apply(s, e))
  {
    var v := Apply(s, e).connects[e.id];
    if Slot(s.connects[e.id].kind, e.id) in s.pending {
      EntryRemovedKept(s, e.id, v);
      assert Apply(s, e).connects == s.connects[e.id := v];
    } else {
      NothingRemovedKept(s, e.id, v);
    }
  }

  // ----- dial-back call events -----

  /** Call k is new, or moves on without its connect's sender changing hands. */
  lemma CallUpdateKept(s: State, k: nat, v: Call)
    requires Inv(s)
    requires CallInv(s.(calls := s.calls[k := v]), k)
    requires k in s.calls ==> v.connId == s.calls[k].connId
    requires k in s.calls ==> s.calls[k].pc.Arrived? || (s.calls[k].pc.Claimed? && v.pc.Cleared?)
    ensures Inv(s.(calls := s.calls[k := v]))
  {
    var t := s.(calls := s.calls[k := v]);
    forall i <- t.connects ensures ConnectInv(t, i) {
      assert ConnectInv(s, i);
      if s.connects[i].sender != HeldBy(k) {
        ConnectFrame(s, t, i);
      }
    }
    forall j <- t.calls ensures CallInv(t, j) {
      if j != k {
        assert CallInv(s, j);
        CallFrame(s, t, j);
      }
    }
    forall m <- t.sessions ensures SessionInv(t, m) {
      assert SessionInv(s, m);
      SessionFrame(s, t, m);
    }
  }

  /** Connect id's sender moves from the table to call k, or from call k on. */
  lemma SenderMoveKept(s: State, t: State, k: nat, id: string)
    requires Inv(s) && k in s.calls && id in s.connects && s.calls[k].connId == Some(id)
    requires k in t.calls && id in t.connects && t.calls[k].connId == Some(id) && SameStatic(t.connects[id], s.connects[id])
    requires t == s.(calls := s.calls[k := t.calls[k]], connects := s.connects[id := t.connects[id]], pending := t.pending)
    requires s.calls[k].pc != Answered(Delivered)
    requires s.connects[id].sender == InTable || s.connects[id].sender == HeldBy(k)
    requires forall slot: Slot :: slot.connId != id ==>
      (slot in t.pending <==> slot in s.pending) && (slot in s.pending ==> t.pending[slot] == s.pending[slot])
    requires ConnectInv(t, id) && CallInv(t, k) && PendingInv(t)
    ensures Inv(t)
  {
    forall i <- t.connects ensures ConnectInv(t, i) {
      if i != id {
        assert ConnectInv(s, i);
        ConnectFrame(s, t, i);
      }
    }
    forall j <- t.calls ensures CallInv(t, j) {
      if j != k {
        assert CallInv(s, j);
        CallFrame(s, t, j);
      }
    }
    forall m <- t.sessions ensures SessionInv(t, m) {
      assert SessionInv(s, m);
      SessionFrame(s, t, m);
    }
  }

  lemma ClaimedKept(s: State, k: nat, slot: Slot)
    requires Inv(s) && k in s.calls && s.calls[k].pc.Arrived? && SlotOf(s.calls[k], slot)
    requires slot in s.pending && slot.connId in s.connects
    ensures Inv(WithSender(WithCall(s, k, Claimed(s.pending[slot])).(pending := s.pending - {slot}), slot.connId, HeldBy(k)))
  {
    var id := slot.connId;
    var t := WithSender(WithCall(s, k, Claimed(s.pending[slot])).(pending := s.pending - {slot}), id, HeldBy(k));
    assert CallInv(s, k) && ConnectInv(s, id);
    assert s.connects[id].kind == slot.kind;
    SenderMoveKept(s, t, k, id);
  }

  lemma CallClaimKept(s: State, e: Event)
    requires Inv(s) && Enabled(s, e) && e.CallClaim?
    ensures Inv(Apply(s, e))
  {
    var k, call := e.c, s.calls[e.c];
    if call.connId.Some? && call.connId.value != "" && Slot(call.kind, call.connId.value) in s.pending {
      ClaimedKept(s, k, Slot(call.kind, call.connId.value));
    } else {
      assert CallInv(s, k);
      CallUpdateKept(s, k, Apply(s, e).calls[k]);
    }
  }

  lemma CallCheckKept(s: State, e: Event)
    requires Inv(s) && Enabled(s, e) && e.CallCheck?
    ensures Inv(Apply(s, e))
  {
    var k, call := e.c, s.calls[e.c];
    var id := call.connId.value;
    var t := Apply(s, e);
    assert CallInv(s, k) && ConnectInv(s, id);
    if PasswordOk(call.pc.pending.pw, call.auth) {
      CallUpdateKept(s, k, t.calls[k]);
    } else {
      assert t.connects[id].sender == Dropped;
      SenderMoveKept(s, t, k, id);
    }
  }

  lemma CallDeliverKept(s: State, e: Event)
    requires Inv(s) && Enabled(s, e) && e.CallDeliver?
    ensures Inv(Apply(s, e))
  {
    var k, id := e.c, s.calls[e.c].connId.value;
    var t := Apply(s, e);
    assert CallInv(s, k) && ConnectInv(s, id);
    if ReceiverAlive(s.connects[id]) {
      assert t.connects[id].sender == Sent(RevStream(k, s.connects[id].host, s.connects[id].port));
    } else {
      assert t.connects[id].sender == Dropped;
    }
    SenderMoveKept(s, t, k, id);
  }

  lemma DialKept(s: State, e: Event)
    requires Inv(s) && Enabled(s, e) && e.Dial?
    ensures Inv(Apply(s, e))
  {
    var t := Apply(s, e);
    var session := s.sessions[e.m];
    assert SessionInv(s, e.m);
    assert RequestInv(s, e.m, session.queue[0]);
    var u := s.(calls := s.calls[e.c := t.calls[e.c]]);
    CallUpdateKept(s, e.c, t.calls[e.c]);
    var v := session.(queue := session.queue[1..]);
    assert t == u.(sessions := u.sessions[e.m := v], managers := u.managers);
    forall i | 0 <= i < |v.queue| ensures RequestInv(t, e.m, v.queue[i]) {
      assert RequestInv(s, e.m, session.queue[i + 1]);
    }
    SessionUpdateKept(u, e.m, v, u.managers);
  }

  lemma ConnectSame(s: State, t: State, id: string)
    requires t == s.(accepted := t.accepted) && id in s.connects && ConnectInv(s, id)
    ensures ConnectInv(t, id)
  {
  }

  lemma SessionSame(s: State, t: State, m: nat)
    requires t == s.(accepted := t.accepted) && m in s.sessions && SessionInv(s, m)
    ensures SessionInv(t, m)
  {
    forall i | 0 <= i < |t.sessions[m].queue| ensures RequestInv(t, m, t.sessions[m].queue[i]) {
      assert RequestInv(s, m, s.sessions[m].queue[i]);
    }
  }

  lemma AcceptedSame(s: State, t: State)
    requires t == s.(accepted := t.accepted) && Inv(s) && AcceptedInv(t)
    ensures Inv(t)
  {
    forall i <- t.connects ensures ConnectInv(t, i) {
      assert ConnectInv(s, i);
      ConnectSame(s, t, i);
    }
    forall j <- t.calls ensures CallInv(t, j) {
      assert CallInv(s, j);
    }
    forall m <- t.sessions ensures SessionInv(t, m) {
      assert SessionInv(s, m);
      SessionSame(s, t, m);
    }
  }

  lemma ListenerAcceptKept(s: State, e: Event)
    requires Inv(s) && Enabled(s, e) && e.ListenerAccept?
    ensures Inv(Apply(s, e))
  {
    assert CallInv(s, e.c);
    AcceptedSame(s, Apply(s, e));
  }

  lemma InvKept(s: State, e: Event)
    requires Inv(s) && Enabled(s, e)
    ensures Inv(Apply(s, e))
  {
    match e {
      case ConnectFind(_, _, _, _, _, _) => ConnectFindKept(s, e);
      case ConnectSend(_) => ConnectSendKept(s, e);
      case ConnectRegister(_) => ConnectRegisterKept(s, e);
      case ConnectReceive(_) => ConnectWaitKept(s, e);
      case ConnectClosed(_) => ConnectWaitKept(s, e);
      case ConnectTimeout(_) => ConnectWaitKept(s, e);
      case ConnectRemove(_) => ConnectRemoveKept(s, e);
      case CallArrive(c, _, _, _) => CallUpdateKept(s, c, Apply(s, e).calls[c]);
      case Dial(_, _, _) => DialKept(s, e);
      case CallClaim(_) => CallClaimKept(s, e);
      case CallCheck(_) => CallCheckKept(s, e);
      case CallDeliver(_) => CallDeliverKept(s, e);
      case ListenerAccept(_) => ListenerAcceptKept(s, e);
      case SessionArrive(_, _, _) => SessionArriveKept(s, e);
      case SessionRegister(_) => SessionTableEventKept(s, e);
      case SessionEnd(_) => SessionTableEventKept(s, e);
      case _ => SessionEventKept(s, e);
    }
  }

  lemma {:induction false} RunKeepsInv(s: State, run: seq<Event>)
    requires Inv(s) && Legal(s, run)
    ensures Inv(Exec(s, run))
    decreases |run|
  {
    if run != [] {
      InvKept(s, run[0]);
      RunKeepsInv(Apply(s, run[0]), run[1..]);
    }
  }

  /** Moving a oneshot sender moves no program counter. */
  lemma SenderKeepsPc(s: State, i: string, sender: Sender, id: string)
    requires i in s.connects && id in s.connects
    ensures id in WithSender(s, i, sender).connects && WithSender(s, i, sender).connects[id].pc == s.connects[id].pc
  {
  }

  lemma ClaimKeepsPc(s: State, c: nat, id: string)
    requires c in s.calls && id in s.connects
    ensures id in Claim(s, c).connects && Claim(s, c).connects[id].pc == s.connects[id].pc
  {
    var call := s.calls[c];
    if call.connId.Some? && call.connId.value in s.connects && Slot(call.kind, call.connId.value) in s.pending {
      var slot := Slot(call.kind, call.connId.value);
      SenderKeepsPc(WithCall(s, c, Claimed(s.pending[slot])).(pending := s.pending - {slot}), slot.connId, HeldBy(c), id);
    }
  }

  lemma CheckKeepsPc(s: State, c: nat, id: string)
    requires c in s.calls && s.calls[c].pc.Claimed? && s.calls[c].connId.Some? && s.calls[c].connId.value in s.connects
    requires id in s.connects
    ensures id in Check(s, c).connects && Check(s, c).connects[id].pc == s.connects[id].pc
  {
    SenderKeepsPc(WithCall(s, c, Answered(BadAuth)), s.calls[c].connId.value, Dropped, id);
  }

  lemma DeliverKeepsPc(s: State, c: nat, id: string)
    requires c in s.calls && s.calls[c].pc.Cleared? && s.calls[c].connId.Some? && s.calls[c].connId.value in s.connects
    requires id in s.connects
    ensures id in Deliver(s, c).connects && Deliver(s, c).connects[id].pc == s.connects[id].pc
  {
    var i, p := s.calls[c].connId.value, s.calls[c].pc.pending;
    SenderKeepsPc(WithCall(s, c, Answered(Delivered)), i, Sent(RevStream(c, p.host, p.port)), id);
    SenderKeepsPc(WithCall(s, c, Answered(ReceiverGone)), i, Dropped, id);
  }

  lemma ReturnKeptStep(s: State, e: Event, id: string)
    requires Enabled(s, e) && id in s.connects && s.connects[id].pc.Returned?
    ensures id in Apply(s, e).connects && Apply(s, e).connects[id].pc == s.connects[id].pc
  {
    if e.CallClaim? {
      ClaimKeepsPc(s, e.c, id);
    } else if e.CallCheck? {
      CheckKeepsPc(s, e.c, id);
    } else if e.CallDeliver? {
      DeliverKeepsPc(s, e.c, id);
    } else if e.ConnectFind? || e.ConnectRegister? || e.ConnectSend? {
      assert e.id != id;
    } else if e.ConnectReceive? || e.ConnectClosed? || e.ConnectTimeout? || e.ConnectRemove? {
      assert e.id != id;
    } else {
      assert Apply(s, e).connects == s.connects;
    }
  }

  /** A connect that has returned stays returned, with the same result. */
  lemma {:induction false} ReturnKept(s: State, run: seq<Event>, id: string)
    requires Legal(s, run) && id in s.connects && s.connects[id].pc.Returned?
    ensures id in Exec(s, run).connects && Exec(s, run).connects[id].pc == s.connects[id].pc
    decreases |run|
  {
    if run != [] {
      ReturnKeptStep(s, run[0], id);
      ReturnKept(Apply(s, run[0]), run[1..], id);
    }
  }

  lemma ReachableInv(s: State)
    requires Reachable(s)
    ensures Inv(s)
  {
    var run :| Legal(Init(s.pwMap), run) && Exec(Init(s.pwMap), run) == s;
    InitInv(s.pwMap);
    RunKeepsInv(Init(s.pwMap), run);
  }

  // ----- results over every interleaving -----

  /**
   * A stream returned by connect was made by a call whose first message carried exactly that connect's
   * conn_id and its password, and is wrapped for exactly the address asked for.
   */
  lemma Agreement(s: State, id: string)
    requires Reachable(s) && id in s.connects && s.connects[id].pc.Returned? && s.connects[id].pc.result.Ok?
    ensures Agrees(s, id, s.connects[id].pc.result.stream)
    ensures var c, stream := s.connects[id], s.connects[id].pc.result.stream;
      && stream.host == c.host && stream.port == c.port && stream.call in s.calls
      && s.calls[stream.call].connId == Some(id) && s.calls[stream.call].kind == c.kind
      && (c.pw.Some? ==> s.calls[stream.call].auth == c.pw.value)
  {
    ReachableInv(s);
    assert ConnectInv(s, id);
  }

  /** Connect i's oneshot channel carries the stream of call k. */
  predicate SentTo(s: State, i: string, k: nat) {
    i in s.connects && s.connects[i].sender.Sent? && s.connects[i].sender.stream.call == k
  }

  /** Call k was answered successfully for conn_id i. */
  predicate DeliveredFor(s: State, k: nat, i: string) {
    k in s.calls && s.calls[k].connId == Some(i) && s.calls[k].pc == Answered(Delivered)
  }

  /** No call is delivered to two connects, and no connect is delivered two calls. */
  lemma DeliveryIsOneToOne(s: State, i: string, j: string, k: nat, l: nat)
    requires Reachable(s)
    ensures SentTo(s, i, k) && SentTo(s, j, k) ==> i == j
    ensures SentTo(s, i, k) && SentTo(s, i, l) ==> k == l
    ensures DeliveredFor(s, k, i) && DeliveredFor(s, l, i) ==> k == l
  {
    ReachableInv(s);
    assert i in s.connects ==> ConnectInv(s, i);
    assert j in s.connects ==> ConnectInv(s, j);
    assert k in s.calls ==> CallInv(s, k);
    assert l in s.calls ==> CallInv(s, l);
  }

  /**
   * The far end agrees: a stream the listener accepts for a dial-back reports, in its handshake, the host
   * and port of the connect whose conn_id it carries; the request came through that connect's own session.
   */
  lemma ListenerAgreement(s: State, k: nat)
    requires Reachable(s) && k in s.accepted
    ensures k in s.calls && s.calls[k].connId.Some? && s.calls[k].connId.value in s.connects
    ensures var c := s.connects[s.calls[k].connId.value];
      s.accepted[k] == RunAddr(c.host, c.port, false)
      && c.session in s.sessions && s.sessions[c.session].tag == c.tag
      && (c.tag in s.pwMap && s.pwMap[c.tag].Some? ==> s.sessions[c.session].auth == s.pwMap[c.tag].value)
  {
    ReachableInv(s);
    var id := s.calls[k].connId.value;
    assert ConnectInv(s, id);
    assert SessionInv(s, s.connects[id].session);
  }

  /** Requests reach only the session they were addressed to. */
  lemma RequestsStayInSession(s: State, m: nat, i: nat)
    requires Reachable(s) && m in s.sessions && i < |s.sessions[m].queue|
    ensures RequestInv(s, m, s.sessions[m].queue[i])
    ensures s.connects[s.sessions[m].queue[i].connId].tag == s.sessions[m].tag
  {
    ReachableInv(s);
    assert SessionInv(s, m);
    assert RequestInv(s, m, s.sessions[m].queue[i]);
    assert ConnectInv(s, s.sessions[m].queue[i].connId);
  }

  /** However a connect or udp_tunnel returned, its conn_id is in neither table, then and ever after. */
  lemma NothingLeftBehind(s: State, run: seq<Event>, id: string, kind: Kind)
    requires Reachable(s) && id in s.connects && s.connects[id].pc.Returned?
    requires Legal(s, run)
    ensures Slot(kind, id) !in Exec(s, run).pending
  {
    ReachableInv(s);
    RunKeepsInv(s, run);
    ReturnKept(s, run, id);
    var t := Exec(s, run);
    assert ConnectInv(t, id);
  }

  /** Each tag maps to the one live session that inserted it, so its clean-up removes its own entry only. */
  lemma ManagerTableExact(s: State, tag: string, m: nat)
    requires Reachable(s)
    ensures tag in s.managers && s.managers[tag] == m <==>
      m in s.sessions && s.sessions[m].tag == tag && (s.sessions[m].pc.Inserted? || s.sessions[m].pc.Draining?)
    ensures Enabled(s, SessionEnd(m)) ==>
      s.managers == Apply(s, SessionEnd(m)).managers[s.sessions[m].tag := m]
      && s.sessions[m].tag !in Apply(s, SessionEnd(m)).managers
  {
    ReachableInv(s);
    assert m in s.sessions ==> SessionInv(s, m);
    if Enabled(s, SessionEnd(m)) {
      assert s.managers == (s.managers - {s.sessions[m].tag})[s.sessions[m].tag := m];
    }
  }
}
