/**
 * The global block pool as an interleaved step machine (src/block.rs) together with the four
 * relay tasks that drive it (src/object/tcp.rs, buffered mode).
 *
 * A lane is one DataBlock with its reader task (the only producer) and its writer task (the only
 * consumer). Every atomic operation, every lock scope and every poll of a Notify future is one
 * step; any number of lanes run interleaved against one shared counter and one shared Notify.
 */
module BlockPool {
  import opened Common
  import opened Bytes

  // ----- tokio's Notify as seen by a single waiter -----

  datatype Waiter = Absent | Enrolled | Handed

  /** A stored one-bit permit, and the state of the one task that may be queued on it. */
  datatype Notify = Notify(permit: bool, waiter: Waiter) {
    /** notify_one: hand over to a queued waiter, otherwise store the permit. */
    function NotifyOne(): Notify {
      if waiter.Enrolled? then this.(waiter := Handed) else this.(permit := true)
    }

    /** Dropping a Notified future: a notification already handed to it is passed on. */
    function Abandon(): Notify {
      if waiter.Handed? then Notify(true, Absent) else this.(waiter := Absent)
    }

    function Tokens(): nat {
      (if permit then 1 else 0) + (if waiter.Handed? then 1 else 0)
    }
  }

  // ----- one lane -----

  /** Program counter of the reader task; a chunk is carried from the read until it is queued. */
  datatype Reader =
    | Reading                                      // select over read and cancelled
    | Probing(chunk: Bytes, untried: bool)         // about to test the queue; untried: provide not polled yet
    | Loading(chunk: Bytes)                        // queue was not empty, about to load the counter
    | Taking(chunk: Bytes)                         // admitted, about to increment the counter
    | Pushing(chunk: Bytes)
    | Signalling                                   // about to notify the consumer
    | Selecting(chunk: Bytes, own: bool, pool: bool) // polling consume_notify and the pool's notify
    | ReaderClosing(lost: Bytes)                   // out of the loop, about to cancel the token
    | ReaderExited(lost: Bytes)

  /** Program counter of the writer task. */
  datatype Writer =
    | Idle                                         // select over consume and cancelled
    | Listening(enrolled: bool)                    // waiting on provide_notify
    | Rechecking
    | Popping
    | Releasing(chunk: Bytes)                      // about to decrement the counter
    | NotifyingPool(chunk: Bytes)
    | NotifyingOwn(chunk: Bytes)
    | Writing(chunk: Bytes)
    | WriterClosing(unsent: Bytes)
    | WriterExited(unsent: Bytes)

  datatype Phase =
    | Alive
    | Dropping(left: nat, pending: bool)           // the loop of Drop; pending: counter decremented, not notified

  datatype Lane = Lane(
    queue: seq<Bytes>,
    provideNotify: Notify,
    consumeNotify: Notify,
    reader: Reader,
    writer: Writer,
    phase: Phase,
    prefix: Bytes,   // payload written to the sink before the tasks start
    source: Bytes,   // everything read from the source so far
    sink: Bytes,     // everything written to the sink so far
    counted: nat     // bytes reported to the connection's observer
  )

  function NewLane(prefix: Bytes): Lane {
    Lane([], Notify(false, Absent), Notify(false, Absent), Reading, Idle, Alive, prefix, [], prefix, |prefix|)
  }

  datatype Action =
    // reader task
    | ReadChunk(data: Bytes) | ReadEnd | CancelRead | CancelOffer
    | Probe | Approve | Refuse | Take | Push | Signal
    | EnrollOwn | EnrollPoolReady | EnrollPoolPending | WakeOwn | WakePool | CancelProvide | CloseReader
    // writer task
    | Look | Listen | Hear | Recheck | Pop | Release | NotifyPool | NotifyOwn
    | WriteOk | WriteFailed(sent: nat) | CancelConsume | CloseWriter
    // Drop of the DataBlock, run by the last task to end
    | BeginDrop | DropRelease | DropNotify

  /** The part of an action's guard that depends on its lane alone. */
  predicate Ready(l: Lane, a: Action) {
    match a
    case ReadChunk(data) => l.reader.Reading? && 0 < |data| <= IO_BUFFER
    case ReadEnd => l.reader.Reading?
    case CancelRead => l.reader.Reading?
    case CancelOffer => l.reader.Probing? && l.reader.untried
    case Probe => l.reader.Probing?
    case Approve => l.reader.Loading?
    case Refuse => l.reader.Loading?
    case Take => l.reader.Taking?
    case Push => l.reader.Pushing?
    case Signal => l.reader.Signalling?
    case EnrollOwn => l.reader.Selecting? && !l.reader.own
    case EnrollPoolReady => l.reader.Selecting? && !l.reader.pool
    case EnrollPoolPending => l.reader.Selecting? && !l.reader.pool
    case WakeOwn => Parked(l) && l.consumeNotify.waiter.Handed?
    case WakePool => Parked(l)
    case CancelProvide => Parked(l)
    case CloseReader => l.reader.ReaderClosing?
    case Look => l.writer.Idle?
    case Listen => l.writer == Listening(false)
    case Hear => l.writer == Listening(true) && l.provideNotify.waiter.Handed?
    case Recheck => l.writer.Rechecking?
    case Pop => l.writer.Popping? && l.queue != []
    case Release => l.writer.Releasing?
    case NotifyPool => l.writer.NotifyingPool?
    case NotifyOwn => l.writer.NotifyingOwn?
    case WriteOk => l.writer.Writing?
    case WriteFailed(sent) => l.writer.Writing? && sent <= |l.writer.chunk|
    case CancelConsume => l.writer.Idle? || l.writer == Listening(true)
    case CloseWriter => l.writer.WriterClosing?
    case BeginDrop => l.phase.Alive? && Ended(l)
    case DropRelease => l.phase.Dropping? && l.phase.left > 0 && !l.phase.pending
    case DropNotify => l.phase.Dropping? && l.phase.pending
  }

  /** The reader is suspended inside provide, queued on both Notify objects. */
  predicate Parked(l: Lane) {
    l.reader.Selecting? && l.reader.own && l.reader.pool
  }

  predicate Ended(l: Lane) {
    l.reader.ReaderExited? && l.writer.WriterExited?
  }

  function Step(l: Lane, a: Action): Lane
    requires Ready(l, a)
  {
    match a
    case ReadChunk(data) => l.(reader := Probing(data, true), source := l.source + data)
    case ReadEnd => l.(reader := ReaderClosing([]))
    case CancelRead => l.(reader := ReaderClosing([]))
    case CancelOffer => l.(reader := ReaderClosing(l.reader.chunk))
    case Probe => l.(reader := if l.queue == [] then Taking(l.reader.chunk) else Loading(l.reader.chunk))
    case Approve => l.(reader := Taking(l.reader.chunk))
    case Refuse => l.(reader := Selecting(l.reader.chunk, false, false))
    case Take => l.(reader := Pushing(l.reader.chunk))
    case Push => l.(reader := Signalling, queue := l.queue + [l.reader.chunk])
    case Signal => l.(reader := Reading, provideNotify := l.provideNotify.NotifyOne())
    case EnrollOwn =>
      if l.consumeNotify.permit then
        l.(reader := Probing(l.reader.chunk, false), consumeNotify := Notify(false, Absent))
      else
        l.(reader := l.reader.(own := true), consumeNotify := Notify(false, Enrolled))
    case EnrollPoolReady => l.(reader := Probing(l.reader.chunk, false), consumeNotify := l.consumeNotify.Abandon())
    case EnrollPoolPending => l.(reader := l.reader.(pool := true))
    case WakeOwn => l.(reader := Probing(l.reader.chunk, false), consumeNotify := l.consumeNotify.(waiter := Absent))
    case WakePool => l.(reader := Probing(l.reader.chunk, false), consumeNotify := l.consumeNotify.Abandon())
    case CancelProvide => l.(reader := ReaderClosing(l.reader.chunk), consumeNotify := l.consumeNotify.Abandon())
    case CloseReader => l.(reader := ReaderExited(l.reader.lost))
    case Look => l.(writer := if l.queue == [] then Listening(false) else Popping)
    case Listen =>
      if l.provideNotify.permit then
        l.(writer := Rechecking, provideNotify := Notify(false, Absent))
      else
        l.(writer := Listening(true), provideNotify := Notify(false, Enrolled))
    case Hear => l.(writer := Rechecking, provideNotify := l.provideNotify.(waiter := Absent))
    case Recheck => l.(writer := if l.queue == [] then Listening(false) else Popping)
    case Pop => l.(writer := Releasing(l.queue[0]), queue := l.queue[1..])
    case Release => l.(writer := NotifyingPool(l.writer.chunk))
    case NotifyPool => l.(writer := NotifyingOwn(l.writer.chunk))
    case NotifyOwn => l.(writer := Writing(l.writer.chunk), consumeNotify := l.consumeNotify.NotifyOne())
    case WriteOk =>
      l.(writer := Idle, sink := l.sink + l.writer.chunk, counted := l.counted + |l.writer.chunk|)
    case WriteFailed(sent) =>
      l.(writer := WriterClosing(l.writer.chunk[sent..]), sink := l.sink + l.writer.chunk[..sent])
    case CancelConsume => l.(writer := WriterClosing([]), provideNotify := l.provideNotify.Abandon())
    case CloseWriter => l.(writer := WriterExited(l.writer.unsent))
    case BeginDrop => l.(phase := Dropping(|l.queue|, false))
    case DropRelease => l.(phase := Dropping(l.phase.left - 1, true))
    case DropNotify => l.(phase := Dropping(l.phase.left, false))
  }

  // ----- the shared pool -----

  /** outbound: the lane from the accepted stream to the connector's stream. */
  datatype LaneId = LaneId(conn: nat, outbound: bool)

  datatype Pool = Pool(
    limit: nat,
    taken: int,
    permit: bool,             // the permit stored in the pool's Notify
    waiting: set<LaneId>,     // readers queued on the pool's Notify
    handed: set<LaneId>,      // readers handed a notification they have not seen yet
    cancelled: set<nat>,      // connections whose token is set
    spawned: set<LaneId>,
    lanes: map<LaneId, Lane>
  )

  function Init(limit: nat): Pool {
    Pool(limit, 0, false, {}, {}, {}, {}, map[])
  }

  /** to: the waiter that receives the pool notification the action issues or passes on, if any. */
  datatype Event =
    | Spawn(id: LaneId, prefix: Bytes)
    | Act(id: LaneId, action: Action, to: Option<LaneId>)
    | Remove(id: LaneId)

  function TakenDelta(a: Action): int {
    match a
    case Take => 1
    case Release => -1
    case DropRelease => -1
    case _ => 0
  }

  /** The action ends the reader's select while its pool future may be queued. */
  predicate LeavesSelect(l: Lane, a: Action) {
    || a.WakeOwn? || a.WakePool? || a.CancelProvide?
    || (a.EnrollOwn? && l.consumeNotify.permit)
  }

  /** The action notifies the pool, or drops a pool future that was already handed a notification. */
  predicate Notifies(s: Pool, id: LaneId, a: Action)
    requires id in s.lanes
  {
    || a.NotifyPool? || a.DropNotify?
    || (LeavesSelect(s.lanes[id], a) && !a.WakePool? && id in s.handed)
  }

  function WaitingAfter(s: Pool, id: LaneId, a: Action): set<LaneId>
    requires id in s.lanes
  {
    if LeavesSelect(s.lanes[id], a) then s.waiting - {id}
    else if a.EnrollPoolPending? then s.waiting + {id}
    else s.waiting
  }

  function HandedAfter(s: Pool, id: LaneId, a: Action): set<LaneId>
    requires id in s.lanes
  {
    if LeavesSelect(s.lanes[id], a) then s.handed - {id} else s.handed
  }

  /** The part of an action's guard that depends on the shared state. */
  predicate SharedGuard(s: Pool, id: LaneId, a: Action) {
    match a
    case Approve => s.taken < s.limit
    case Refuse => s.taken >= s.limit
    case EnrollPoolReady => s.permit
    case EnrollPoolPending => !s.permit
    case WakePool => id in s.handed
    case CancelRead => id.conn in s.cancelled
    case CancelOffer => id.conn in s.cancelled
    case CancelProvide => id.conn in s.cancelled
    case CancelConsume => id.conn in s.cancelled
    case _ => true
  }

  predicate Enabled(s: Pool, e: Event) {
    match e
    case Spawn(id, prefix) =>
      && id !in s.spawned
      && (if id.outbound then LaneId(id.conn, false) !in s.spawned
          else LaneId(id.conn, true) in s.spawned && prefix == [])
    case Act(id, a, to) =>
      && id in s.lanes
      && Ready(s.lanes[id], a)
      && SharedGuard(s, id, a)
      && (if !Notifies(s, id, a) then to == None
          else if WaitingAfter(s, id, a) == {} then to == None
          else to.Some? && to.value in WaitingAfter(s, id, a))
    case Remove(id) =>
      id in s.lanes && s.lanes[id].phase == Dropping(0, false)
  }

  function Apply(s: Pool, e: Event): Pool
    requires Enabled(s, e)
  {
    match e
    case Spawn(id, prefix) => s.(spawned := s.spawned + {id}, lanes := s.lanes[id := NewLane(prefix)])
    case Remove(id) => s.(lanes := s.lanes - {id})
    case Act(id, a, to) =>
      var waiting := WaitingAfter(s, id, a);
      var handed := HandedAfter(s, id, a);
      s.(taken := s.taken + TakenDelta(a),
         permit := if a.EnrollPoolReady? then false else s.permit || (Notifies(s, id, a) && to.None?),
         waiting := if to.Some? then waiting - {to.value} else waiting,
         handed := if to.Some? then handed + {to.value} else handed,
         cancelled := if a.CloseReader? || a.CloseWriter? then s.cancelled + {id.conn} else s.cancelled,
         lanes := s.lanes[id := Step(s.lanes[id], a)])
  }

  // ----- runs -----

  predicate Legal(s: Pool, run: seq<Event>)
    decreases |run|
  {
    run == [] || (Enabled(s, run[0]) && Legal(Apply(s, run[0]), run[1..]))
  }

  function Exec(s: Pool, run: seq<Event>): Pool
    requires Legal(s, run)
    decreases |run|
  {
    if run == [] then s else Exec(Apply(s, run[0]), run[1..])
  }

  /** s can be reached from an empty pool of the given limit by some interleaving. */
  ghost predicate Reachable(s: Pool) {
    exists run :: Legal(Init(s.limit), run) && Exec(Init(s.limit), run) == s
  }

  lemma RunPrepend(s: Pool, e: Event, run: seq<Event>)
    requires Enabled(s, e) && Legal(Apply(s, e), run)
    ensures Legal(s, [e] + run) && Exec(s, [e] + run) == Exec(Apply(s, e), run)
  {
    assert ([e] + run)[0] == e && ([e] + run)[1..] == run;
  }

  lemma {:induction false} RunConcat(s: Pool, first: seq<Event>, second: seq<Event>)
    requires Legal(s, first) && Legal(Exec(s, first), second)
    ensures Legal(s, first + second)
    ensures Exec(s, first + second) == Exec(Exec(s, first), second)
    decreases |first|
  {
    if first == [] {
      assert first + second == second;
    } else {
      assert (first + second)[0] == first[0] && (first + second)[1..] == first[1..] + second;
      RunConcat(Apply(s, first[0]), first[1..], second);
    }
  }
}
