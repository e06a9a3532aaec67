/**
 * The reverse-gRPC rendezvous as a step machine (src/connector/rev_grpc.rs, src/listener/rev_grpc.rs).
 *
 * Three tables are shared by connect and udp_tunnel calls, manager sessions and dial-back calls, which
 * all run interleaved: every DashMap operation, channel send and channel receive is one step. Callers
 * of the dial-back methods are arbitrary: they may use any conn_id and password, any number of times.
 */
module Rendezvous {
  import opened Common

  datatype Kind = Tcp | Udp

  /** A request the connector pushes to a manager session (ManagerRes). */
  datatype ManagerRes = ManagerRes(addrInfo: Option<AddrInfo>, udp: nat, connId: string)
  datatype AddrInfo = AddrInfo(dstAddr: string, dstPort: nat)

  datatype Slot = Slot(kind: Kind, connId: string)

  /** An entry of pending_streams or pending_udp, less its oneshot sender. */
  datatype Pending = Pending(host: string, port: u16, pw: Option<string>)

  /** The stream a dial-back call is wrapped into. */
  datatype RevStream = RevStream(call: nat, host: string, port: u16)

  /** Where the sending half of a connect's oneshot channel is. */
  datatype Sender =
    | Unregistered
    | InTable
    | HeldBy(call: nat)
    | Sent(stream: RevStream)
    | Dropped

  datatype Error = SendFailed | ChannelClosed | TimedOut

  datatype ConnectPc =
    | Found                       // has the session's sender, conn_id not registered yet
    | Registered                  // entry inserted, request not sent
    | Waiting                     // request sent, waiting for the oneshot
    | Failing(error: Error)       // about to remove its entry
    | Returned(result: Result)

  datatype Result = Ok(stream: RevStream) | Err(error: Error)

  /** One call of connect (Tcp) or udp_tunnel (Udp). */
  datatype Connect = Connect(
    kind: Kind, tag: string, host: string, port: u16, pw: Option<string>,
    session: nat, pc: ConnectPc, sender: Sender)

  datatype SessionPc = SessionArrived | SessionCleared | Inserted | Draining | Gone | Rejected

  /** One call of manager; open: the receiving half of its request channel still exists. */
  datatype Session = Session(tag: string, auth: string, pc: SessionPc, open: bool, queue: seq<ManagerRes>)

  datatype CallPc =
    | Arrived
    | Claimed(pending: Pending)   // entry removed, password not checked
    | Cleared(pending: Pending)   // password accepted, stream not handed over
    | Answered(outcome: Outcome)

  datatype Outcome = MissingId | NotFound | BadAuth | Delivered | ReceiverGone

  /** One call of stream (Tcp) or udp (Udp); origin: the request it answers, if the listener made it. */
  datatype Call = Call(kind: Kind, auth: string, connId: Option<string>, origin: Option<ManagerRes>, pc: CallPc)

  datatype State = State(
    pwMap: map<string, Option<string>>,
    managers: map<string, nat>,
    pending: map<Slot, Pending>,
    sessions: map<nat, Session>,
    connects: map<string, Connect>,
    calls: map<nat, Call>,
    accepted: map<nat, RunAddr<string>>)

  function Init(pwMap: map<string, Option<string>>): State {
    State(pwMap, map[], map[], map[], map[], map[], map[])
  }

  predicate PasswordOk(expected: Option<string>, given: string) {
    expected.Some? ==> given == expected.value
  }

  /** The password configured for a tag, if the tag is known and has one. */
  function TagPassword(s: State, tag: string): Option<string> {
    if tag in s.pwMap then s.pwMap[tag] else None
  }

  function RequestOf(id: string, c: Connect): ManagerRes {
    if c.kind.Tcp? then ManagerRes(Some(AddrInfo(c.host, c.port)), 0, id)
    else ManagerRes(None, 1, id)
  }

  function PendingOf(c: Connect): Pending {
    Pending(c.host, c.port, c.pw)
  }

  /** The receiving half of the oneshot lives until connect stops waiting on it. */
  predicate ReceiverAlive(c: Connect) {
    c.pc.Registered? || c.pc.Waiting? || c.pc == Failing(SendFailed)
  }

  predicate SlotOf(c: Call, slot: Slot) {
    c.connId == Some(slot.connId) && c.kind == slot.kind
  }

  datatype Event =
    // manager sessions
    | SessionArrive(m: nat, tag: string, auth: string)
    | SessionCheck(m: nat)
    | SessionRegister(m: nat)
    | SessionDrain(m: nat)
    | SessionEnd(m: nat)
    | SessionDropReceiver(m: nat)
    // connect and udp_tunnel
    | ConnectFind(id: string, kind: Kind, tag: string, host: string, port: u16, pw: Option<string>)
    | ConnectRegister(id: string)
    | ConnectSend(id: string)
    | ConnectReceive(id: string)
    | ConnectClosed(id: string)
    | ConnectTimeout(id: string)
    | ConnectRemove(id: string)
    // dial-back calls: by anybody, or by the listener answering a request
    | CallArrive(c: nat, kind: Kind, auth: string, connId: Option<string>)
    | Dial(m: nat, c: nat, auth: string)
    | CallClaim(c: nat)
    | CallCheck(c: nat)
    | CallDeliver(c: nat)
    | ListenerAccept(c: nat)

  predicate Enabled(s: State, e: Event) {
    match e
    case SessionArrive(m, _, _) => m !in s.sessions
    case SessionCheck(m) => m in s.sessions && s.sessions[m].pc.SessionArrived?
    case SessionRegister(m) => m in s.sessions && s.sessions[m].pc.SessionCleared?
    case SessionDrain(m) => m in s.sessions && s.sessions[m].pc.Inserted?
    case SessionEnd(m) => m in s.sessions && s.sessions[m].pc.Draining?
    case SessionDropReceiver(m) => m in s.sessions && s.sessions[m].open
    case ConnectFind(id, kind, tag, host, port, _) =>
      && id != "" && id !in s.connects && tag in s.managers
      && (if kind.Tcp? then host != "" else host == "" && port == 0)
    case ConnectRegister(id) => id in s.connects && s.connects[id].pc.Found?
    case ConnectSend(id) => id in s.connects && s.connects[id].pc.Registered? && s.connects[id].session in s.sessions
    case ConnectReceive(id) => id in s.connects && s.connects[id].pc.Waiting? && s.connects[id].sender.Sent?
    case ConnectClosed(id) => id in s.connects && s.connects[id].pc.Waiting? && s.connects[id].sender.Dropped?
    case ConnectTimeout(id) => id in s.connects && s.connects[id].pc.Waiting?
    case ConnectRemove(id) => id in s.connects && s.connects[id].pc.Failing?
    case CallArrive(c, _, _, _) => c !in s.calls
    case Dial(m, c, _) => m in s.sessions && s.sessions[m].queue != [] && c !in s.calls
    case CallClaim(c) => c in s.calls && s.calls[c].pc.Arrived?
    case CallCheck(c) => c in s.calls && s.calls[c].pc.Claimed? && s.calls[c].connId.Some? && s.calls[c].connId.value in s.connects
    case CallDeliver(c) => c in s.calls && s.calls[c].pc.Cleared? && s.calls[c].connId.Some? && s.calls[c].connId.value in s.connects
    case ListenerAccept(c) =>
      && c in s.calls && c !in s.accepted && s.calls[c].kind.Tcp?
      && s.calls[c].origin.Some? && s.calls[c].origin.value.addrInfo.Some?
      && s.calls[c].pc.Answered? && (s.calls[c].pc.outcome.Delivered? || s.calls[c].pc.outcome.ReceiverGone?)
  }

  function WithSession(s: State, m: nat, pc: SessionPc): State
    requires m in s.sessions
  {
    s.(sessions := s.sessions[m := s.sessions[m].(pc := pc)])
  }

  function WithConnect(s: State, id: string, pc: ConnectPc): State
    requires id in s.connects
  {
    s.(connects := s.connects[id := s.connects[id].(pc := pc)])
  }

  function WithSender(s: State, id: string, sender: Sender): State
    requires id in s.connects
  {
    s.(connects := s.connects[id := s.connects[id].(sender := sender)])
  }

  function WithCall(s: State, c: nat, pc: CallPc): State
    requires c in s.calls
  {
    s.(calls := s.calls[c := s.calls[c].(pc := pc)])
  }

  /** A handler looks its conn_id up, and takes the entry out of the table. */
  function Claim(s: State, c: nat): State
    requires c in s.calls
  {
    var call := s.calls[c];
    if call.connId.None? || call.connId.value == "" then WithCall(s, c, Answered(MissingId))
    else
      var slot := Slot(call.kind, call.connId.value);
      if slot !in s.pending then WithCall(s, c, Answered(NotFound))
      else
        var t := WithCall(s, c, Claimed(s.pending[slot])).(pending := s.pending - {slot});
        if slot.connId in t.connects then WithSender(t, slot.connId, HeldBy(c)) else t
  }

  /** It compares passwords; a wrong one drops the sender it took. */
  function Check(s: State, c: nat): State
    requires c in s.calls && s.calls[c].pc.Claimed? && s.calls[c].connId.Some? && s.calls[c].connId.value in s.connects
  {
    var call := s.calls[c];
    if PasswordOk(call.pc.pending.pw, call.auth) then WithCall(s, c, Cleared(call.pc.pending))
    else WithSender(WithCall(s, c, Answered(BadAuth)), call.connId.value, Dropped)
  }

  /** It sends the stream through the oneshot, which fails when connect no longer waits. */
  function Deliver(s: State, c: nat): State
    requires c in s.calls && s.calls[c].pc.Cleared? && s.calls[c].connId.Some? && s.calls[c].connId.value in s.connects
  {
    var call := s.calls[c];
    var id := call.connId.value;
    var p := call.pc.pending;
    if ReceiverAlive(s.connects[id]) then
      WithSender(WithCall(s, c, Answered(Delivered)), id, Sent(RevStream(c, p.host, p.port)))
    else
      WithSender(WithCall(s, c, Answered(ReceiverGone)), id, Dropped)
  }

  function Apply(s: State, e: Event): State
    requires Enabled(s, e)
  {
    match e
    case SessionArrive(m, tag, auth) =>
      s.(sessions := s.sessions[m := Session(tag, auth, SessionArrived, true, [])])
    case SessionCheck(m) =>
      WithSession(s, m, if PasswordOk(TagPassword(s, s.sessions[m].tag), s.sessions[m].auth) then SessionCleared else Rejected)
    case SessionRegister(m) =>
      if s.sessions[m].tag in s.managers then WithSession(s, m, Rejected)
      else WithSession(s, m, Inserted).(managers := s.managers[s.sessions[m].tag := m])
    case SessionDrain(m) => WithSession(s, m, Draining)
    case SessionEnd(m) => WithSession(s, m, Gone).(managers := s.managers - {s.sessions[m].tag})
    case SessionDropReceiver(m) => s.(sessions := s.sessions[m := s.sessions[m].(open := false)])
    case ConnectFind(id, kind, tag, host, port, pw) =>
      s.(connects := s.connects[id := Connect(kind, tag, host, port, pw, s.managers[tag], Found, Unregistered)])
    case ConnectRegister(id) =>
      var c := s.connects[id];
      WithSender(WithConnect(s, id, Registered), id, InTable).(pending := s.pending[Slot(c.kind, id) := PendingOf(c)])
    case ConnectSend(id) =>
      var c := s.connects[id];
      var session := s.sessions[c.session];
      if session.open then
        WithConnect(s, id, Waiting).(
          sessions := s.sessions[c.session := session.(queue := session.queue + [RequestOf(id, c)])])
      else WithConnect(s, id, Failing(SendFailed))
    case ConnectReceive(id) => WithConnect(s, id, Returned(Ok(s.connects[id].sender.stream)))
    case ConnectClosed(id) => WithConnect(s, id, Failing(ChannelClosed))
    case ConnectTimeout(id) => WithConnect(s, id, Failing(TimedOut))
    case ConnectRemove(id) =>
      var c := s.connects[id];
      var slot := Slot(c.kind, id);
      var t := WithConnect(s, id, Returned(Err(c.pc.error)));
      if slot in s.pending then WithSender(t, id, Dropped).(pending := s.pending - {slot}) else t
    case CallArrive(c, kind, auth, connId) =>
      s.(calls := s.calls[c := Call(kind, auth, connId, None, Arrived)])
    case Dial(m, c, auth) =>
      var session := s.sessions[m];
      var req := session.queue[0];
      s.(sessions := s.sessions[m := session.(queue := session.queue[1..])],
         calls := s.calls[c := Call(if req.udp == 0 then Tcp else Udp, auth, Some(req.connId), Some(req), Arrived)])
    case CallClaim(c) => Claim(s, c)
    case CallCheck(c) => Check(s, c)
    case CallDeliver(c) => Deliver(s, c)
    case ListenerAccept(c) =>
      var info := s.calls[c].origin.value.addrInfo.value;
      s.(accepted := s.accepted[c := RunAddr(info.dstAddr, info.dstPort % 0x1_0000, false)])
  }

  predicate Legal(s: State, run: seq<Event>)
    decreases |run|
  {
    run == [] || (Enabled(s, run[0]) && Legal(Apply(s, run[0]), run[1..]))
  }

  function Exec(s: State, run: seq<Event>): State
    requires Legal(s, run)
    decreases |run|
  {
    if run == [] then s else Exec(Apply(s, run[0]), run[1..])
  }

  ghost predicate Reachable(s: State) {
    exists run :: Legal(Init(s.pwMap), run) && Exec(Init(s.pwMap), run) == s
  }
}
