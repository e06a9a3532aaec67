/**
 * The direct relay of a TCP connection (src/object/tcp.rs, no block pool): two tasks, each copying from
 * one read half to the other side's write half through a fixed buffer, and one cancel token.
 */
module TcpRelay {
  import opened Common
  import opened Bytes

  // ----- the two tasks as an interleaved step machine -----

  datatype Pc =
    | Selecting                  // select over read and cancelled
    | Writing(chunk: Bytes)      // inside the read branch: no longer cancellable
    | Closing(unsent: Bytes)     // out of the loop, about to cancel the token
    | Exited(unsent: Bytes)

  /** prefix: written before the tasks start; source: everything read; sink: everything written. */
  datatype Task = Task(prefix: Bytes, source: Bytes, sink: Bytes, counted: nat, pc: Pc)

  datatype Action = Read(data: Bytes) | ReadEnd | ReadError | Cancel | WriteOk | WriteFailed(sent: nat) | Close

  predicate Ready(t: Task, a: Action) {
    match a
    case Read(data) => t.pc.Selecting? && 0 < |data| <= IO_BUFFER
    case ReadEnd => t.pc.Selecting?
    case ReadError => t.pc.Selecting?
    case Cancel => t.pc.Selecting?
    case WriteOk => t.pc.Writing?
    case WriteFailed(sent) => t.pc.Writing? && sent <= |t.pc.chunk|
    case Close => t.pc.Closing?
  }

  function Step(t: Task, a: Action): Task
    requires Ready(t, a)
  {
    match a
    case Read(data) => t.(pc := Writing(data), source := t.source + data)
    case ReadEnd => t.(pc := Closing([]))
    case ReadError => t.(pc := Closing([]))
    case Cancel => t.(pc := Closing([]))
    case WriteOk => t.(pc := Selecting, sink := t.sink + t.pc.chunk, counted := t.counted + |t.pc.chunk|)
    case WriteFailed(sent) => t.(pc := Closing(t.pc.chunk[sent..]), sink := t.sink + t.pc.chunk[..sent])
    case Close => t.(pc := Exited(t.pc.unsent))
  }

  /** outbound: from the accepted stream to the connector's; inbound: the reverse. joined: how many joins returned. */
  datatype Relay = Relay(cancelled: bool, outbound: Task, inbound: Task, joined: nat)

  /** The bytes left over from the handshake go to the connector's stream before either task starts. */
  function Start(cache: Bytes): Relay {
    Relay(false, Task(cache, [], cache, |cache|, Selecting), Task([], [], [], 0, Selecting), 0)
  }

  datatype Event = Outbound(action: Action) | Inbound(action: Action) | JoinOutbound | JoinInbound

  predicate Enabled(r: Relay, e: Event) {
    match e
    case Outbound(a) => Ready(r.outbound, a) && (a.Cancel? ==> r.cancelled)
    case Inbound(a) => Ready(r.inbound, a) && (a.Cancel? ==> r.cancelled)
    case JoinOutbound => r.joined == 0 && r.outbound.pc.Exited?
    case JoinInbound => r.joined == 1 && r.inbound.pc.Exited?
  }

  function Apply(r: Relay, e: Event): Relay
    requires Enabled(r, e)
  {
    match e
    case Outbound(a) => r.(outbound := Step(r.outbound, a), cancelled := r.cancelled || a.Close?)
    case Inbound(a) => r.(inbound := Step(r.inbound, a), cancelled := r.cancelled || a.Close?)
    case JoinOutbound => r.(joined := 1)
    case JoinInbound => r.(joined := 2)
  }

  predicate Legal(r: Relay, run: seq<Event>)
    decreases |run|
  {
    run == [] || (Enabled(r, run[0]) && Legal(Apply(r, run[0]), run[1..]))
  }

  function Exec(r: Relay, run: seq<Event>): Relay
    requires Legal(r, run)
    decreases |run|
  {
    if run == [] then r else Exec(Apply(r, run[0]), run[1..])
  }

  // ----- what every step keeps -----

  function Held(pc: Pc): Bytes {
    match pc
    case Selecting => []
    case Writing(chunk) => chunk
    case Closing(unsent) => unsent
    case Exited(unsent) => unsent
  }

  ghost predicate TaskInv(t: Task) {
    && t.prefix + t.source == t.sink + Held(t.pc)
    && t.counted <= |t.sink|
    && (t.pc.Selecting? || t.pc.Writing? ==> t.counted == |t.sink|)
  }

  ghost predicate Inv(r: Relay) {
    && TaskInv(r.outbound) && TaskInv(r.inbound)
    && (r.outbound.pc.Exited? || r.inbound.pc.Exited? ==> r.cancelled)
    && r.joined <= 2 && (1 <= r.joined ==> r.outbound.pc.Exited?) && (r.joined == 2 ==> r.inbound.pc.Exited?)
  }

  lemma TaskInvKept(t: Task, a: Action)
    requires TaskInv(t) && Ready(t, a)
    ensures TaskInv(Step(t, a)) && Step(t, a).prefix == t.prefix && t.source <= Step(t, a).source
  {
    match a {
      case Read(data) =>
        assert t.prefix + (t.source + data) == (t.prefix + t.source) + data == t.sink + [] + data == t.sink + data;
      case WriteOk =>
        assert t.sink + t.pc.chunk + [] == t.sink + t.pc.chunk;
      case WriteFailed(sent) =>
        assert t.sink + t.pc.chunk[..sent] + t.pc.chunk[sent..] == t.sink + t.pc.chunk;
      case _ =>
    }
  }

  lemma InvKept(r: Relay, e: Event)
    requires Inv(r) && Enabled(r, e)
    ensures Inv(Apply(r, e)) && (r.cancelled ==> Apply(r, e).cancelled)
    ensures Apply(r, e).outbound.prefix == r.outbound.prefix && Apply(r, e).inbound.prefix == r.inbound.prefix
  {
    match e {
      case Outbound(a) => TaskInvKept(r.outbound, a);
      case Inbound(a) => TaskInvKept(r.inbound, a);
      case _ =>
    }
  }

  lemma {:induction false} RunKeepsInv(r: Relay, run: seq<Event>)
    requires Inv(r) && Legal(r, run)
    ensures Inv(Exec(r, run)) && (r.cancelled ==> Exec(r, run).cancelled)
    ensures Exec(r, run).outbound.prefix == r.outbound.prefix && Exec(r, run).inbound.prefix == r.inbound.prefix
    decreases |run|
  {
    if run != [] {
      InvKept(r, run[0]);
      RunKeepsInv(Apply(r, run[0]), run[1..]);
    }
  }

  /**
   * In every reachable state of either direction the sink holds a prefix of what was read, behind the cached
   * bytes; all of it, counted to the byte, whenever the task is at the head of its loop.
   */
  lemma DirectDelivery(cache: Bytes, run: seq<Event>)
    requires Legal(Start(cache), run)
    ensures var r := Exec(Start(cache), run);
      && cache + r.outbound.source == r.outbound.sink + Held(r.outbound.pc)
      && r.inbound.source == r.inbound.sink + Held(r.inbound.pc)
      && (r.outbound.pc.Selecting? ==> r.outbound.sink == cache + r.outbound.source && r.outbound.counted == |r.outbound.sink|)
      && (r.inbound.pc.Selecting? ==> r.inbound.sink == r.inbound.source && r.inbound.counted == |r.inbound.sink|)
  {
    var r := Exec(Start(cache), run);
    assert cache + [] == cache;
    RunKeepsInv(Start(cache), run);
    assert [] + r.inbound.source == r.inbound.source;
    assert r.inbound.sink + [] == r.inbound.sink && r.outbound.sink + [] == r.outbound.sink;
  }

  /** The data a step reads for one of the tasks. */
  function ReadBy(e: Event, outbound: bool): Bytes {
    if outbound && e.Outbound? && e.action.Read? then e.action.data
    else if !outbound && e.Inbound? && e.action.Read? then e.action.data
    else []
  }

  /** All data one task's reads returned in a run. */
  function ReadIn(run: seq<Event>, outbound: bool): Bytes {
    if run == [] then [] else ReadBy(run[0], outbound) + ReadIn(run[1..], outbound)
  }

  lemma SourceOfTask(t: Task, a: Action)
    requires Ready(t, a)
    ensures Step(t, a).source == if a.Read? then t.source + a.data else t.source
  {
  }

  lemma SourceOfStep(r: Relay, e: Event)
    requires Enabled(r, e)
    ensures Apply(r, e).outbound.source == r.outbound.source + ReadBy(e, true)
    ensures Apply(r, e).inbound.source == r.inbound.source + ReadBy(e, false)
  {
    if e.Outbound? {
      SourceOfTask(r.outbound, e.action);
    } else if e.Inbound? {
      SourceOfTask(r.inbound, e.action);
    }
  }

  lemma {:induction false} SourceOfRun(r: Relay, run: seq<Event>)
    requires Legal(r, run)
    ensures Exec(r, run).outbound.source == r.outbound.source + ReadIn(run, true)
    ensures Exec(r, run).inbound.source == r.inbound.source + ReadIn(run, false)
    decreases |run|
  {
    if run != [] {
      SourceOfRun(Apply(r, run[0]), run[1..]);
      SourceOfStep(r, run[0]);
      Regroup(r.outbound.source, ReadBy(run[0], true), ReadIn(run[1..], true));
      Regroup(r.inbound.source, ReadBy(run[0], false), ReadIn(run[1..], false));
    }
  }

  /** Delivery in terms of the run: what was left over from the handshake and what the reads returned. */
  lemma RunDelivery(cache: Bytes, run: seq<Event>)
    requires Legal(Start(cache), run)
    ensures var r := Exec(Start(cache), run);
      && cache + ReadIn(run, true) == r.outbound.sink + Held(r.outbound.pc)
      && ReadIn(run, false) == r.inbound.sink + Held(r.inbound.pc)
      && (r.outbound.pc.Selecting? ==> r.outbound.sink == cache + ReadIn(run, true) && r.outbound.counted == |r.outbound.sink|)
      && (r.inbound.pc.Selecting? ==> r.inbound.sink == ReadIn(run, false) && r.inbound.counted == |r.inbound.sink|)
  {
    DirectDelivery(cache, run);
    SourceOfRun(Start(cache), run);
    assert [] + ReadIn(run, true) == ReadIn(run, true) && [] + ReadIn(run, false) == ReadIn(run, false);
  }

  /** A read that ends or fails, or a write that fails, in either task. */
  predicate Ends(e: Event) {
    (e.Outbound? || e.Inbound?) && (e.action.ReadEnd? || e.action.ReadError? || e.action.WriteFailed?)
  }

  predicate GoesOn(r: Relay) {
    && !r.cancelled && (r.outbound.pc.Selecting? || r.outbound.pc.Writing?)
    && (r.inbound.pc.Selecting? || r.inbound.pc.Writing?)
  }

  /** Nothing else ends the relay: until then no token is set and both tasks stay in their loops. */
  lemma {:induction false} RelayGoesOn(r: Relay, run: seq<Event>)
    requires Legal(r, run) && GoesOn(r) && forall i :: 0 <= i < |run| ==> !Ends(run[i])
    ensures GoesOn(Exec(r, run))
    decreases |run|
  {
    if run != [] {
      assert !Ends(run[0]) && GoesOn(Apply(r, run[0]));
      RelayGoesOn(Apply(r, run[0]), run[1..]);
    }
  }

  // ----- shutdown -----

  /** Steps left to a task that reads no more. */
  function StepsLeft(pc: Pc): nat {
    match pc
    case Selecting => 2
    case Writing(_) => 3
    case Closing(_) => 1
    case Exited(_) => 0
  }

  function Remaining(r: Relay): int {
    StepsLeft(r.outbound.pc) + StepsLeft(r.inbound.pc) + 2 - r.joined
  }

  predicate Internal(e: Event) {
    !((e.Outbound? || e.Inbound?) && e.action.Read?)
  }

  /** The next step of a task once the token is set: leave the select, finish the write, cancel. */
  function Leave(pc: Pc): Action
    requires !pc.Exited?
  {
    match pc
    case Selecting => Cancel
    case Writing(_) => WriteOk
    case Closing(_) => Close
  }

  lemma ShutdownStep(r: Relay)
    requires Inv(r) && r.cancelled && r.joined < 2
    ensures exists e :: Enabled(r, e) && Internal(e)
  {
    if !r.outbound.pc.Exited? {
      assert Enabled(r, Outbound(Leave(r.outbound.pc))) && Internal(Outbound(Leave(r.outbound.pc)));
    } else if !r.inbound.pc.Exited? {
      assert Enabled(r, Inbound(Leave(r.inbound.pc))) && Internal(Inbound(Leave(r.inbound.pc)));
    } else if r.joined == 0 {
      assert Enabled(r, JoinOutbound) && Internal(JoinOutbound);
    } else {
      assert Enabled(r, JoinInbound) && Internal(JoinInbound);
    }
  }

  lemma {:induction false} InternalRunsAreShort(r: Relay, run: seq<Event>)
    requires Inv(r) && Legal(r, run) && forall i :: 0 <= i < |run| ==> Internal(run[i])
    ensures |run| + Remaining(Exec(r, run)) <= Remaining(r)
    decreases |run|
  {
    if run != [] {
      InvKept(r, run[0]);
      InternalRunsAreShort(Apply(r, run[0]), run[1..]);
    }
  }

  /**
   * Once the token is set, which any finished task ensures, the relay returns: at most eight steps other than
   * further reads can follow, and one is possible until both joins have returned. The token stays set.
   */
  lemma ShutdownCompletes(cache: Bytes, before: seq<Event>, run: seq<Event>)
    requires Legal(Start(cache), before)
    requires var r := Exec(Start(cache), before);
      (r.cancelled || r.outbound.pc.Exited? || r.inbound.pc.Exited?) && Legal(r, run)
    requires forall i :: 0 <= i < |run| ==> Internal(run[i])
    ensures |run| <= 8
    ensures var t := Exec(Exec(Start(cache), before), run);
      t.cancelled && (t.joined == 2 || exists e :: Enabled(t, e) && Internal(e))
  {
    assert cache + [] == cache;
    RunKeepsInv(Start(cache), before);
    var r := Exec(Start(cache), before);
    RunKeepsInv(r, run);
    InternalRunsAreShort(r, run);
    var t := Exec(r, run);
    if t.joined < 2 { ShutdownStep(t); }
  }

  // ----- one task as the loop it is -----

  /** What one turn of the loop meets: a read, with what becomes of its write, an error, or the token. */
  datatype Turn = Arrived(data: Bytes, fate: Fate) | Broken | Cancelled
  datatype Fate = Accepted | Refused(sent: nat)

  predicate Possible(turn: Turn) {
    turn.Arrived? ==> |turn.data| <= IO_BUFFER && (turn.fate.Refused? ==> turn.fate.sent <= |turn.data|)
  }

  function Actions(turn: Turn): seq<Action> {
    match turn
    case Broken => [ReadError]
    case Cancelled => [Cancel]
    case Arrived(data, fate) =>
      if data == [] then [ReadEnd]
      else if fate.Accepted? then [Read(data), WriteOk]
      else [Read(data), WriteFailed(fate.sent)]
  }

  predicate Performs(t: Task, actions: seq<Action>)
    decreases |actions|
  {
    actions == [] || (Ready(t, actions[0]) && Performs(Step(t, actions[0]), actions[1..]))
  }

  function Perform(t: Task, actions: seq<Action>): Task
    requires Performs(t, actions)
    decreases |actions|
  {
    if actions == [] then t else Perform(Step(t, actions[0]), actions[1..])
  }

  lemma OneAction(t: Task, a: Action)
    requires Ready(t, a)
    ensures Performs(t, [a]) && Perform(t, [a]) == Step(t, a)
  {
    assert [a][1..] == [];
    assert Perform(Step(t, a), []) == Step(t, a);
  }

  lemma TwoActions(t: Task, a: Action, b: Action)
    requires Ready(t, a) && Ready(Step(t, a), b)
    ensures Performs(t, [a, b]) && Perform(t, [a, b]) == Step(Step(t, a), b)
  {
    OneAction(Step(t, a), b);
    assert [a, b][1..] == [b];
  }

  lemma OneTurn(t: Task, turn: Turn)
    requires t.pc.Selecting? && Possible(turn)
    ensures Performs(t, Actions(turn))
    ensures var u := Perform(t, Actions(turn));
      match turn
      case Broken => u == t.(pc := Closing([]))
      case Cancelled => u == t.(pc := Closing([]))
      case Arrived(data, fate) =>
        if data == [] then u == t.(pc := Closing([]))
        else if fate.Accepted? then
          u == t.(source := t.source + data, sink := t.sink + data, counted := t.counted + |data|)
        else
          u == t.(source := t.source + data, sink := t.sink + data[..fate.sent], pc := Closing(data[fate.sent..]))
  {
    if turn.Arrived? && turn.data != [] {
      TwoActions(t, Actions(turn)[0], Actions(turn)[1]);
    } else {
      OneAction(t, Actions(turn)[0]);
    }
  }

  /** The task after the given turns; once it leaves its loop the rest do not happen. */
  function After(t: Task, turns: seq<Turn>): Task
    requires forall i :: 0 <= i < |turns| ==> Possible(turns[i])
    decreases |turns|
  {
    if turns == [] || !t.pc.Selecting? then t
    else
      OneTurn(t, turns[0]);
      After(Perform(t, Actions(turns[0])), turns[1..])
  }

  /** What a task's turns put on its sink: the data of each accepted write, and a part of a refused one. */
  function Delivered(turns: seq<Turn>): Bytes {
    if turns == [] then []
    else
      match turns[0]
      case Broken => []
      case Cancelled => []
      case Arrived(data, Accepted) => if data == [] then [] else data + Delivered(turns[1..])
      case Arrived(data, Refused(sent)) => if sent <= |data| then data[..sent] else data
  }

  /** How many of those bytes it reports: those of accepted writes. */
  function Reported(turns: seq<Turn>): nat {
    if turns == [] then 0
    else
      match turns[0]
      case Arrived(data, Accepted) => if data == [] then 0 else |data| + Reported(turns[1..])
      case _ => 0
  }

  lemma {:induction false} AfterDelivers(t: Task, turns: seq<Turn>)
    requires t.pc.Selecting? && forall i :: 0 <= i < |turns| ==> Possible(turns[i])
    ensures After(t, turns).sink == t.sink + Delivered(turns)
    ensures After(t, turns).counted == t.counted + Reported(turns)
    decreases |turns|
  {
    if turns != [] {
      OneTurn(t, turns[0]);
      var u := Perform(t, Actions(turns[0]));
      if u.pc.Selecting? {
        AfterDelivers(u, turns[1..]);
        Regroup(t.sink, turns[0].data, Delivered(turns[1..]));
      }
    }
  }

  /** The write half, and the observer of the bytes written to it. */
  class Sink {
    var sent: Bytes
    var counted: nat

    constructor (sent: Bytes)
      ensures this.sent == sent && counted == |sent|
    {
      this.sent, counted := sent, |sent|;
    }

    method Write(data: Bytes, fate: Fate) returns (ok: bool)
      requires fate.Refused? ==> fate.sent <= |data|
      modifies this`sent
      ensures ok <==> fate.Accepted?
      ensures sent == old(sent) + if fate.Accepted? then data else data[..fate.sent]
    {
      if fate.Refused? {
        sent := sent + data[..fate.sent];
        return false;
      }
      sent := sent + data;
      return true;
    }
  }

  /** A read puts its bytes at the front of the buffer and leaves the rest of it stale. */
  method FillFront(buf: array<byte>, data: Bytes)
    requires |data| <= buf.Length
    modifies buf
    ensures buf[..|data|] == data && buf[|data|..] == old(buf[|data|..])
  {
    for i := 0 to |data|
      invariant buf[..i] == data[..i] && buf[|data|..] == old(buf[|data|..])
    {
      buf[i] := data[i];
    }
  }

  /** One turn of the loop: what was read into the buffer is written; running tells whether the loop goes on. */
  method TakeTurn(turn: Turn, buf: array<byte>, sink: Sink, ghost task: Task) returns (running: bool)
    requires buf.Length == IO_BUFFER && Possible(turn)
    requires task.pc.Selecting? && task.sink == sink.sent && task.counted == sink.counted
    modifies buf, sink
    ensures Performs(task, Actions(turn))
    ensures sink.sent == Perform(task, Actions(turn)).sink && sink.counted == Perform(task, Actions(turn)).counted
    ensures running <==> Perform(task, Actions(turn)).pc.Selecting?
  {
    OneTurn(task, turn);
    match turn {
      case Broken => return false;
      case Cancelled => return false;
      case Arrived(data, fate) =>
        var n := |data|;
        FillFront(buf, data);
        if n == 0 {
          return false;
        }
        var ok := sink.Write(buf[..n], fate);
        if !ok {
          return false;
        }
        sink.counted := sink.counted + n;
        return true;
    }
  }

  /**
   * The loop of either task does to its sink and its observer exactly what the machine's steps do, although it
   * reuses one buffer; running tells whether it is still in its loop.
   */
  method Pump(turns: seq<Turn>, sink: Sink, ghost task: Task) returns (running: bool)
    requires forall i :: 0 <= i < |turns| ==> Possible(turns[i])
    requires task.pc.Selecting? && task.sink == sink.sent && task.counted == sink.counted
    modifies sink
    ensures sink.sent == After(task, turns).sink && sink.counted == After(task, turns).counted
    ensures running <==> After(task, turns).pc.Selecting?
    ensures sink.sent == old(sink.sent) + Delivered(turns) && sink.counted == old(sink.counted) + Reported(turns)
  {
    AfterDelivers(task, turns);
    var buf := new byte[IO_BUFFER](_ => 0);
    ghost var now := task;
    for i := 0 to |turns|
      invariant now.pc.Selecting? && now.sink == sink.sent && now.counted == sink.counted
      invariant After(now, turns[i..]) == After(task, turns)
    {
      assert turns[i..][0] == turns[i] && turns[i..][1..] == turns[i + 1..];
      running := TakeTurn(turns[i], buf, sink, now);
      now := Perform(now, Actions(turns[i]));
      if !running {
        return;
      }
    }
    return true;
  }

  // ----- both tasks, interleaved -----

  datatype Scheduled = Scheduled(outbound: bool, turn: Turn)

  /** The turns of one of the two tasks, in order. */
  function TurnsOf(schedule: seq<Scheduled>, outbound: bool): seq<Turn> {
    if schedule == [] then []
    else (if schedule[0].outbound == outbound then [schedule[0].turn] else []) + TurnsOf(schedule[1..], outbound)
  }

  predicate AllPossible(schedule: seq<Scheduled>) {
    forall i :: 0 <= i < |schedule| ==> Possible(schedule[i].turn)
  }

  lemma {:induction false} TurnsPossible(schedule: seq<Scheduled>, outbound: bool)
    requires AllPossible(schedule)
    ensures forall i :: 0 <= i < |TurnsOf(schedule, outbound)| ==> Possible(TurnsOf(schedule, outbound)[i])
  {
    if schedule != [] {
      TurnsPossible(schedule[1..], outbound);
    }
  }

  /** The task after its own turns of a schedule. */
  function AfterOwn(t: Task, schedule: seq<Scheduled>, outbound: bool): Task
    requires AllPossible(schedule)
  {
    TurnsPossible(schedule, outbound);
    After(t, TurnsOf(schedule, outbound))
  }

  lemma NextTurn(t: Task, schedule: seq<Scheduled>, i: nat, outbound: bool)
    requires AllPossible(schedule) && i < |schedule|
    ensures Performs(t, Actions(schedule[i].turn)) || !t.pc.Selecting?
    ensures AfterOwn(t, schedule[i..], outbound) ==
      if schedule[i].outbound == outbound && t.pc.Selecting?
      then AfterOwn(Perform(t, Actions(schedule[i].turn)), schedule[i + 1..], outbound)
      else AfterOwn(t, schedule[i + 1..], outbound)
  {
    assert schedule[i..][0] == schedule[i] && schedule[i..][1..] == schedule[i + 1..];
    if t.pc.Selecting? { OneTurn(t, schedule[i].turn); }
    var turns := TurnsOf(schedule[i + 1..], outbound);
    if schedule[i].outbound == outbound {
      assert ([schedule[i].turn] + turns)[0] == schedule[i].turn && ([schedule[i].turn] + turns)[1..] == turns;
    } else {
      assert [] + turns == turns;
    }
  }

  ghost predicate Mirrors(sink: Sink, running: bool, t: Task)
    reads sink
  {
    sink.sent == t.sink && sink.counted == t.counted && (running <==> t.pc.Selecting?)
  }

  /**
   * Leftover bytes are written first; if that fails no task starts. Then, however the turns of the two loops
   * interleave, each sink gets exactly what its own loop's turns give.
   */
  method Relaying(cache: Option<Bytes>, fate: Fate, client: Sink, server: Sink, schedule: seq<Scheduled>)
    returns (ok: bool)
    requires client != server && client.sent == [] && client.counted == 0 && server.sent == [] && server.counted == 0
    requires cache.Some? && fate.Refused? ==> fate.sent <= |cache.value|
    requires AllPossible(schedule)
    modifies client, server
    ensures ok <==> cache.None? || fate.Accepted?
    ensures !ok ==> client.sent <= cache.value && client.counted == 0 && server.sent == [] && server.counted == 0
    ensures ok ==>
      var start := Start(if cache.Some? then cache.value else []);
      var out, back := AfterOwn(start.outbound, schedule, true), AfterOwn(start.inbound, schedule, false);
      && client.sent == out.sink && client.counted == out.counted
      && server.sent == back.sink && server.counted == back.counted
    ensures ok ==>
      var payload := if cache.Some? then cache.value else [];
      && client.sent == payload + Delivered(TurnsOf(schedule, true))
      && client.counted == |payload| + Reported(TurnsOf(schedule, true))
      && server.sent == Delivered(TurnsOf(schedule, false)) && server.counted == Reported(TurnsOf(schedule, false))
  {
    if cache.Some? {
      ok := client.Write(cache.value, fate);
      if !ok {
        return;
      }
      client.counted := client.counted + |cache.value|;
    }
    ghost var start := Start(if cache.Some? then cache.value else []);
    var outBuf, backBuf := new byte[IO_BUFFER](_ => 0), new byte[IO_BUFFER](_ => 0);
    var outRunning, backRunning := true, true;
    ghost var out, back := start.outbound, start.inbound;
    for i := 0 to |schedule|
      invariant Mirrors(client, outRunning, out) && Mirrors(server, backRunning, back)
      invariant AfterOwn(out, schedule[i..], true) == AfterOwn(start.outbound, schedule, true)
      invariant AfterOwn(back, schedule[i..], false) == AfterOwn(start.inbound, schedule, false)
    {
      var turn := schedule[i].turn;
      NextTurn(out, schedule, i, true);
      NextTurn(back, schedule, i, false);
      if schedule[i].outbound {
        if outRunning {
          outRunning := TakeTurn(turn, outBuf, client, out);
          out := Perform(out, Actions(turn));
        }
      } else if backRunning {
        backRunning := TakeTurn(turn, backBuf, server, back);
        back := Perform(back, Actions(turn));
      }
    }
    TurnsPossible(schedule, true);
    TurnsPossible(schedule, false);
    AfterDelivers(start.outbound, TurnsOf(schedule, true));
    AfterDelivers(start.inbound, TurnsOf(schedule, false));
    assert TurnsOf(schedule[|schedule|..], true) == [] && TurnsOf(schedule[|schedule|..], false) == [];
    return true;
  }

  // ----- the two directions do not affect each other's bytes -----

  /** One task's actions in a run of the machine. */
  function ActionsOf(run: seq<Event>, outbound: bool): seq<Action> {
    if run == [] then []
    else
      (if outbound && run[0].Outbound? then [run[0].action]
       else if !outbound && run[0].Inbound? then [run[0].action]
       else []) + ActionsOf(run[1..], outbound)
  }

  lemma PerformFirst(t: Task, a: Action, rest: seq<Action>)
    requires Ready(t, a) && Performs(Step(t, a), rest)
    ensures Performs(t, [a] + rest) && Perform(t, [a] + rest) == Perform(Step(t, a), rest)
  {
    assert ([a] + rest)[1..] == rest;
  }

  lemma ActionsOfRest(run: seq<Event>, outbound: bool)
    requires run != [] && !(if outbound then run[0].Outbound? else run[0].Inbound?)
    ensures ActionsOf(run, outbound) == ActionsOf(run[1..], outbound)
  {
  }

  /** In every interleaving of the machine each task does what its own actions do by themselves. */
  lemma {:induction false} Independent(r: Relay, run: seq<Event>)
    requires Legal(r, run)
    ensures Performs(r.outbound, ActionsOf(run, true)) && Perform(r.outbound, ActionsOf(run, true)) == Exec(r, run).outbound
    ensures Performs(r.inbound, ActionsOf(run, false)) && Perform(r.inbound, ActionsOf(run, false)) == Exec(r, run).inbound
    decreases |run|
  {
    if run != [] {
      Independent(Apply(r, run[0]), run[1..]);
      if run[0].Outbound? {
        PerformFirst(r.outbound, run[0].action, ActionsOf(run[1..], true));
      } else {
        ActionsOfRest(run, true);
      }
      if run[0].Inbound? {
        PerformFirst(r.inbound, run[0].action, ActionsOf(run[1..], false));
      } else {
        ActionsOfRest(run, false);
      }
    }
  }
}
