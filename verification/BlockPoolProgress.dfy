/**
 * Progress of the block pool: a bound on the work a run can do, what the states with nothing left
 * to do look like, and how long a reader waits for its own queue.
 */
module BlockPoolProgress {
  import opened Common
  import opened Bytes
  import opened MapSum
  import opened BlockPool
  import opened BlockPoolSafety

  // ----- a potential that every step but a read and a spawn uses up -----

  function ReaderWork(r: Reader): int {
    match r
    case Probing(_, _) => 26
    case Loading(_) => 25
    case Selecting(_, own, pool) => 22 + (if own then 0 else 1) + (if pool then 0 else 1)
    case Taking(_) => 24
    case Pushing(_) => 23
    case Signalling => 6
    case Reading => 2
    case ReaderClosing(_) => 1
    case ReaderExited(_) => 0
  }

  function WriterWork(w: Writer): int {
    match w
    case Releasing(_) => 18
    case NotifyingPool(_) => 17
    case NotifyingOwn(_) => 11
    case Writing(_) => 5
    case Idle => 4
    case Rechecking => 4
    case Popping => 3
    case Listening(enrolled) => if enrolled then 2 else 3
    case WriterClosing(_) => 1
    case WriterExited(_) => 0
  }

  function PhaseWork(l: Lane): int {
    match l.phase
    case Alive => 2 + 16 * |l.queue|
    case Dropping(left, pending) => 1 + 8 * left + (if pending then 6 else 0)
  }

  function LaneWork(l: Lane): int {
    PhaseWork(l) + ReaderWork(l.reader) + WriterWork(l.writer)
    + 3 * l.provideNotify.Tokens() + 5 * l.consumeNotify.Tokens()
  }

  function PoolTokens(s: Pool): int {
    (if s.permit then 1 else 0) + |s.handed|
  }

  ghost function Work(s: Pool): int {
    Sum(s.lanes, LaneWork) + 5 * PoolTokens(s)
  }

  /** Pool notifications an action adds (at most) or uses up. */
  function TokenDelta(a: Action): int {
    if a.NotifyPool? || a.DropNotify? then 1
    else if a.WakePool? || a.EnrollPoolReady? then -1
    else 0
  }

  /** The reader's actions inside the select of provide. */
  predicate InSelect(a: Action) {
    a.EnrollOwn? || a.EnrollPoolReady? || a.EnrollPoolPending? || a.WakeOwn? || a.WakePool? || a.CancelProvide?
  }

  lemma SelectShrinksWork(l: Lane, a: Action)
    requires Consistent(l) && Ready(l, a) && InSelect(a)
    ensures LaneWork(Step(l, a)) + 5 * TokenDelta(a) + 1 <= LaneWork(l)
  {
  }

  lemma ReaderShrinksWork(l: Lane, a: Action)
    requires Consistent(l) && Ready(l, a) && ByReader(a) && !InSelect(a)
    ensures LaneWork(Step(l, a)) + 5 * TokenDelta(a) + 1 <= LaneWork(l) + (if a.ReadChunk? then 25 else 0)
  {
  }

  lemma WriterShrinksWork(l: Lane, a: Action)
    requires Consistent(l) && Ready(l, a) && !ByReader(a)
    ensures LaneWork(Step(l, a)) + 5 * TokenDelta(a) + 1 <= LaneWork(l)
  {
  }

  lemma LaneWorkShrinks(l: Lane, a: Action)
    requires LaneInv(l) && Ready(l, a)
    ensures LaneWork(Step(l, a)) + 5 * TokenDelta(a) + 1 <= LaneWork(l) + (if a.ReadChunk? then 25 else 0)
  {
    if InSelect(a) {
      SelectShrinksWork(l, a);
    } else if ByReader(a) {
      ReaderShrinksWork(l, a);
    } else {
      WriterShrinksWork(l, a);
    }
  }

  lemma HandedShrinks(s: Pool, id: LaneId, a: Action)
    requires id in s.lanes
    ensures |HandedAfter(s, id, a)| == |s.handed| - (if LeavesSelect(s.lanes[id], a) && id in s.handed then 1 else 0)
  {
    if LeavesSelect(s.lanes[id], a) && id !in s.handed {
      assert s.handed - {id} == s.handed;
    }
  }

  /** A notification issued or passed on becomes one token at most. */
  lemma HandedGrows(s: Pool, e: Event)
    requires Enabled(s, e) && e.Act?
    ensures |Apply(s, e).handed| <= |HandedAfter(s, e.id, e.action)| + (if e.to.Some? then 1 else 0)
  {
    if e.to.Some? {
      assert |HandedAfter(s, e.id, e.action) + {e.to.value}| <= |HandedAfter(s, e.id, e.action)| + 1;
    }
  }

  lemma PoolTokensBounded(s: Pool, e: Event)
    requires Enabled(s, e) && e.Act?
    ensures PoolTokens(Apply(s, e)) <= PoolTokens(s) + TokenDelta(e.action)
  {
    HandedShrinks(s, e.id, e.action);
    HandedGrows(s, e);
  }

  lemma LaneWorkNatural(l: Lane)
    requires LaneInv(l)
    ensures 0 <= LaneWork(l)
  {
  }

  lemma WorkNatural(s: Pool)
    requires Inv(s)
    ensures 0 <= Work(s)
  {
    forall id <- s.lanes ensures 0 <= LaneWork(s.lanes[id]) {
      LaneWorkNatural(s.lanes[id]);
    }
    SumMonotone(s.lanes, _ => 0, LaneWork);
    SumZero(s.lanes, _ => 0);
  }

  function Fuel(e: Event): nat {
    match e
    case Spawn(_, _) => 9
    case Act(_, a, _) => if a.ReadChunk? then 25 else 0
    case Remove(_) => 0
  }

  lemma WorkShrinks(s: Pool, e: Event)
    requires Inv(s) && Enabled(s, e)
    ensures Work(Apply(s, e)) + 1 <= Work(s) + Fuel(e)
  {
    match e {
      case Spawn(id, prefix) =>
        SumInsert(s.lanes, id, NewLane(prefix), LaneWork);
      case Remove(id) =>
        assert Ended(s.lanes[id]) by { assert LaneInv(s.lanes[id]); }
        SumRemove(s.lanes, id, LaneWork);
      case Act(id, a, _) =>
        LaneWorkShrinks(s.lanes[id], a);
        PoolTokensBounded(s, e);
        SumUpdate(s.lanes, id, Step(s.lanes[id], a), LaneWork);
    }
  }

  function TotalFuel(run: seq<Event>): nat {
    if run == [] then 0 else Fuel(run[0]) + TotalFuel(run[1..])
  }

  lemma {:induction false} RunWork(s: Pool, run: seq<Event>)
    requires Inv(s) && Legal(s, run)
    ensures |run| + Work(Exec(s, run)) <= Work(s) + TotalFuel(run)
    decreases |run|
  {
    if run != [] {
      InvKept(s, run[0]);
      WorkShrinks(s, run[0]);
      RunWork(Apply(s, run[0]), run[1..]);
    }
  }

  /**
   * No livelock and no wakeup storm: whatever the interleaving, the number of steps taken anywhere in
   * the system is at most 25 per chunk read plus 9 per lane opened.
   */
  lemma WorkBound(limit: nat, run: seq<Event>)
    requires Legal(Init(limit), run)
    ensures |run| <= TotalFuel(run)
  {
    InitInv(limit);
    RunWork(Init(limit), run);
    RunKeepsInv(Init(limit), run);
    WorkNatural(Exec(Init(limit), run));
  }

  // ----- quiescence -----

  /** A step the system takes by itself: everything but spawning a lane and what a source decides. */
  predicate Internal(e: Event) {
    !e.Spawn? && !(e.Act? && (e.action.ReadChunk? || e.action.ReadEnd?))
  }

  ghost predicate Quiescent(s: Pool) {
    forall e :: Enabled(s, e) ==> !Internal(e)
  }

  /** The target a notification may be given, for any state and action. */
  ghost function Target(s: Pool, id: LaneId, a: Action): Option<LaneId>
    requires id in s.lanes
  {
    if !Notifies(s, id, a) || WaitingAfter(s, id, a) == {} then None
    else var to :| to in WaitingAfter(s, id, a); Some(to)
  }

  lemma QuiescentForbids(s: Pool, id: LaneId, a: Action)
    requires Quiescent(s) && id in s.lanes && !a.ReadChunk? && !a.ReadEnd?
    ensures !(Ready(s.lanes[id], a) && SharedGuard(s, id, a))
  {
    if Ready(s.lanes[id], a) && SharedGuard(s, id, a) {
      var e := Act(id, a, Target(s, id, a));
      assert Enabled(s, e) && Internal(e);
    }
  }

  predicate ReaderStuck(l: Lane) {
    l.reader.Reading? || (Parked(l) && !l.consumeNotify.waiter.Handed?) || l.reader.ReaderExited?
  }

  /** The next step of a reader that is not stuck. */
  function ReaderNext(s: Pool, l: Lane): Action {
    match l.reader
    case Probing(_, _) => Probe
    case Loading(_) => if s.taken < s.limit then Approve else Refuse
    case Taking(_) => Take
    case Pushing(_) => Push
    case Signalling => Signal
    case Selecting(_, own, pool) =>
      if !own then EnrollOwn
      else if pool then WakeOwn
      else if s.permit then EnrollPoolReady
      else EnrollPoolPending
    case _ => CloseReader
  }

  lemma QuiescentReader(s: Pool, id: LaneId)
    requires Quiescent(s) && id in s.lanes
    ensures ReaderStuck(s.lanes[id])
    ensures id.conn in s.cancelled ==> s.lanes[id].reader.ReaderExited?
  {
    QuiescentForbids(s, id, ReaderNext(s, s.lanes[id]));
    QuiescentForbids(s, id, CancelRead);
    QuiescentForbids(s, id, CancelProvide);
  }

  predicate WriterStuck(l: Lane) {
    || (l.writer == Listening(true) && !l.provideNotify.waiter.Handed?)
    || (l.writer.Popping? && l.queue == [])
    || l.writer.WriterExited?
  }

  /** The next step of a writer that is not stuck. */
  function WriterNext(l: Lane): Action {
    match l.writer
    case Idle => Look
    case Listening(enrolled) => if enrolled then Hear else Listen
    case Rechecking => Recheck
    case Popping => Pop
    case Releasing(_) => Release
    case NotifyingPool(_) => NotifyPool
    case NotifyingOwn(_) => NotifyOwn
    case Writing(_) => WriteOk
    case _ => CloseWriter
  }

  lemma QuiescentWriter(s: Pool, id: LaneId)
    requires Quiescent(s) && id in s.lanes
    ensures WriterStuck(s.lanes[id])
    ensures id.conn in s.cancelled ==> s.lanes[id].writer != Listening(true)
  {
    QuiescentForbids(s, id, WriterNext(s.lanes[id]));
    QuiescentForbids(s, id, CancelConsume);
  }

  lemma QuiescentNotRemovable(s: Pool, id: LaneId)
    requires Quiescent(s) && id in s.lanes
    ensures s.lanes[id].phase != Dropping(0, false)
  {
    if s.lanes[id].phase == Dropping(0, false) {
      assert Enabled(s, Remove(id)) && Internal(Remove(id));
    }
  }

  lemma QuiescentNotDropping(s: Pool, id: LaneId)
    requires Quiescent(s) && id in s.lanes
    ensures s.lanes[id].phase.Alive? && !Ended(s.lanes[id])
  {
    QuiescentNotRemovable(s, id);
    QuiescentForbids(s, id, BeginDrop);
    QuiescentForbids(s, id, DropRelease);
    QuiescentForbids(s, id, DropNotify);
  }

  /** A lane with nothing left to do has handed on every byte and waits for its source. */
  predicate Delivered(l: Lane) {
    && l.reader.Reading? && l.writer == Listening(true) && l.phase.Alive?
    && l.queue == [] && l.sink == l.prefix + l.source && l.counted == |l.sink|
  }

  lemma QuiescentLane(s: Pool, id: LaneId)
    requires Inv(s) && Quiescent(s) && id in s.lanes
    ensures id.conn !in s.cancelled && Delivered(s.lanes[id])
  {
    assert LaneInv(s.lanes[id]);
    QuiescentReader(s, id);
    QuiescentWriter(s, id);
    QuiescentNotDropping(s, id);
    assert Flatten([]) == [];
  }

  /**
   * When no internal step is left the counter is 0, no lane of a cancelled connection remains (so its
   * four joins have returned and both blocks are dropped), and every other lane has delivered all it read.
   */
  lemma QuiescentMeansDelivered(s: Pool)
    requires Reachable(s) && Quiescent(s)
    ensures s.taken == 0
    ensures forall id <- s.lanes :: id.conn !in s.cancelled && Delivered(s.lanes[id])
  {
    ReachableInv(s);
    forall id <- s.lanes ensures id.conn !in s.cancelled && Delivered(s.lanes[id]) {
      QuiescentLane(s, id);
    }
    SumZero(s.lanes, Credit);
  }

  lemma InternalShrinks(s: Pool, e: Event)
    requires Inv(s) && Enabled(s, e) && Internal(e)
    ensures Inv(Apply(s, e)) && 0 <= Work(Apply(s, e)) < Work(s)
  {
    InvKept(s, e);
    WorkShrinks(s, e);
    WorkNatural(Apply(s, e));
  }

  /** In terms of the run: when no internal step is left, each live lane has sent its payload and all it read. */
  lemma RunDeliversAll(limit: nat, run: seq<Event>, id: LaneId)
    requires Legal(Init(limit), run) && Quiescent(Exec(Init(limit), run)) && id in Exec(Init(limit), run).lanes
    ensures Exec(Init(limit), run).lanes[id].sink == PayloadIn(run, id) + ReadIn(run, id)
    ensures Exec(Init(limit), run).lanes[id].counted == |PayloadIn(run, id) + ReadIn(run, id)|
  {
    InitInv(limit);
    RunKeepsInv(Init(limit), run);
    QuiescentMeansDelivered(Exec(Init(limit), run));
    LaneStream(Init(limit), run, id);
  }

  // ----- what ends a connection -----

  /** The source of one of the connection's lanes ends, or a write of one fails. */
  predicate Ends(e: Event, conn: nat) {
    e.Act? && e.id.conn == conn && (e.action.ReadEnd? || e.action.WriteFailed?)
  }

  /** Both tasks are in their loops. */
  predicate LaneGoesOn(l: Lane) {
    && l.phase.Alive? && !l.reader.ReaderClosing? && !l.reader.ReaderExited?
    && !l.writer.WriterClosing? && !l.writer.WriterExited?
  }

  ghost predicate GoesOn(s: Pool, conn: nat) {
    conn !in s.cancelled && forall id <- s.spawned :: id.conn == conn ==> id in s.lanes && LaneGoesOn(s.lanes[id])
  }

  lemma StepGoesOn(s: Pool, id: LaneId, a: Action)
    requires id in s.lanes && id.conn !in s.cancelled && LaneGoesOn(s.lanes[id]) && Ready(s.lanes[id], a) && SharedGuard(s, id, a)
    requires !a.ReadEnd? && !a.WriteFailed?
    ensures LaneGoesOn(Step(s.lanes[id], a)) && !a.CloseReader? && !a.CloseWriter?
  {
  }

  lemma EventGoesOn(s: Pool, e: Event, conn: nat)
    requires Enabled(s, e) && GoesOn(s, conn) && !Ends(e, conn) && s.lanes.Keys <= s.spawned
    ensures GoesOn(Apply(s, e), conn)
  {
    if e.Act? && e.id.conn == conn { StepGoesOn(s, e.id, e.action); }
  }

  lemma {:induction false} RunGoesOn(s: Pool, run: seq<Event>, conn: nat)
    requires Legal(s, run) && GoesOn(s, conn) && s.lanes.Keys <= s.spawned
    requires forall i :: 0 <= i < |run| ==> !Ends(run[i], conn)
    ensures GoesOn(Exec(s, run), conn)
    decreases |run|
  {
    if run != [] {
      EventGoesOn(s, run[0], conn);
      RunGoesOn(Apply(s, run[0]), run[1..], conn);
    }
  }

  /**
   * Until one of its sources ends or one of its writes fails, a connection is not cancelled and neither task of
   * either lane leaves its loop; then whenever no internal step is left, all that was read has been sent.
   */
  lemma ConnectionGoesOn(limit: nat, run: seq<Event>, id: LaneId)
    requires Legal(Init(limit), run) && id in Exec(Init(limit), run).spawned
    requires forall i :: 0 <= i < |run| ==> !Ends(run[i], id.conn)
    ensures var s := Exec(Init(limit), run);
      && id.conn !in s.cancelled && id in s.lanes && LaneGoesOn(s.lanes[id])
      && (Quiescent(s) ==> s.lanes[id].sink == PayloadIn(run, id) + ReadIn(run, id))
  {
    RunGoesOn(Init(limit), run, id.conn);
    if Quiescent(Exec(Init(limit), run)) { RunDeliversAll(limit, run, id); }
  }

  /** Every internal run is finite, with a bound known in advance, and one can always be completed. */
  lemma {:induction false} QuiescenceReached(s: Pool) returns (run: seq<Event>)
    requires Inv(s)
    ensures Legal(s, run) && Quiescent(Exec(s, run))
    ensures forall i :: 0 <= i < |run| ==> Internal(run[i])
    decreases Work(s)
  {
    if Quiescent(s) {
      run := [];
    } else {
      var e :| Enabled(s, e) && Internal(e);
      InternalShrinks(s, e);
      var rest := QuiescenceReached(Apply(s, e));
      RunPrepend(s, e, rest);
      run := [e] + rest;
    }
  }

  lemma {:induction false} InternalRunsAreShort(s: Pool, run: seq<Event>)
    requires Inv(s) && Legal(s, run)
    requires forall i :: 0 <= i < |run| ==> Internal(run[i])
    ensures |run| + Work(Exec(s, run)) <= Work(s)
    decreases |run|
  {
    if run != [] {
      InternalShrinks(s, run[0]);
      InternalRunsAreShort(Apply(s, run[0]), run[1..]);
    }
  }

  /**
   * From every reachable state the system, left alone by its sources, always comes to rest: every run of
   * internal steps has at most Work(s) of them, and wherever it cannot be continued all is delivered.
   */
  lemma ComesToRest(s: Pool, run: seq<Event>)
    requires Reachable(s) && Legal(s, run)
    requires forall i :: 0 <= i < |run| ==> Internal(run[i])
    ensures |run| <= Work(s)
    ensures Quiescent(Exec(s, run)) ==>
      var t := Exec(s, run);
      t.taken == 0 && forall id <- t.lanes :: id.conn !in s.cancelled && Delivered(t.lanes[id])
    ensures !Quiescent(Exec(s, run)) ==> exists e :: Enabled(Exec(s, run), e) && Internal(e)
  {
    ReachableInv(s);
    InternalRunsAreShort(s, run);
    RunKeepsInv(s, run);
    WorkNatural(Exec(s, run));
    if Quiescent(Exec(s, run)) {
      var init :| Legal(Init(s.limit), init) && Exec(Init(s.limit), init) == s;
      RunConcat(Init(s.limit), init, run);
      QuiescentMeansDelivered(Exec(s, run));
    }
  }

  /** The lane's reader holds a chunk that provide has not admitted. */
  predicate Unadmitted(r: Reader) {
    r.Probing? || r.Loading? || r.Selecting?
  }

  /** A pair of tasks with data between them is never stuck: one of the two has a step of its own. */
  lemma DataPendingCanStep(s: Pool, id: LaneId)
    requires Reachable(s) && id in s.lanes && s.lanes[id].phase.Alive?
    requires s.lanes[id].queue != [] || Unadmitted(s.lanes[id].reader)
    ensures exists e :: Enabled(s, e) && Internal(e) && e.Act? && e.id == id
  {
    ReachableInv(s);
    var l := s.lanes[id];
    assert LaneInv(l);
    var a := if !ReaderStuck(l) then ReaderNext(s, l)
             else if !WriterStuck(l) then WriterNext(l)
             else if Ended(l) then BeginDrop
             else if l.reader.Reading? then CancelRead
             else if l.reader.Selecting? then CancelProvide
             else CancelConsume;
    assert Enabled(s, Act(id, a, Target(s, id, a)));
  }

  // ----- waiting for one's own queue -----

  ghost predicate StaysUnadmitted(s: Pool, run: seq<Event>, id: LaneId)
    requires Legal(s, run)
    decreases |run|
  {
    && id in s.lanes && Unadmitted(s.lanes[id].reader)
    && (run == [] || StaysUnadmitted(Apply(s, run[0]), run[1..], id))
  }

  function Count(run: seq<Event>, id: LaneId, a: Action): nat {
    if run == [] then 0
    else (if IsAct(run[0], id, a) then 1 else 0) + Count(run[1..], id, a)
  }

  lemma LaneFrame(s: Pool, e: Event, id: LaneId)
    requires Enabled(s, e) && id in s.lanes && id in Apply(s, e).lanes && s.lanes.Keys <= s.spawned
    requires !(e.Act? && e.id == id)
    ensures Apply(s, e).lanes[id] == s.lanes[id]
  {
  }

  lemma UnadmittedStep(l: Lane, a: Action)
    requires LaneInv(l) && Ready(l, a) && Unadmitted(l.reader) && Unadmitted(Step(l, a).reader)
    ensures a.Pop? ==> l.queue != []
    ensures Step(l, a).queue == if a.Pop? then l.queue[1..] else l.queue
    ensures l.queue == [] && a.Refuse? ==> l.reader.Loading? && !Step(l, a).reader.Loading?
    ensures l.queue == [] && Step(l, a).reader.Loading? ==> l.reader.Loading?
    ensures l.queue == [] ==> !a.Probe?
  {
  }

  predicate IsAct(e: Event, id: LaneId, a: Action) {
    e.Act? && e.id == id && e.action == a
  }

  /** What any step of any lane can do to a lane whose chunk stays unadmitted. */
  lemma UnadmittedEvent(s: Pool, e: Event, id: LaneId)
    requires Inv(s) && Enabled(s, e) && id in s.lanes && id in Apply(s, e).lanes
    requires Unadmitted(s.lanes[id].reader) && Unadmitted(Apply(s, e).lanes[id].reader)
    ensures var l, l' := s.lanes[id], Apply(s, e).lanes[id];
      && (IsAct(e, id, Pop) ==> l.queue != [])
      && l'.queue == (if IsAct(e, id, Pop) then l.queue[1..] else l.queue)
      && (l.queue == [] && IsAct(e, id, Refuse) ==> l.reader.Loading? && !l'.reader.Loading?)
      && (l.queue == [] && l'.reader.Loading? ==> l.reader.Loading?)
      && (l.queue == [] ==> !IsAct(e, id, Probe))
  {
    if e.Act? && e.id == id {
      assert LaneInv(s.lanes[id]);
      UnadmittedStep(s.lanes[id], e.action);
    } else {
      LaneFrame(s, e, id);
    }
  }

  /**
   * While a reader's chunk stays unadmitted, its queue only shrinks: no more blocks are popped from it
   * than it held. This holds whatever the pool and all other lanes do.
   */
  lemma {:induction false} PopsBounded(s: Pool, run: seq<Event>, id: LaneId)
    requires Inv(s) && Legal(s, run) && StaysUnadmitted(s, run, id)
    ensures id in Exec(s, run).lanes
    ensures Count(run, id, Pop) <= |s.lanes[id].queue|
    ensures Exec(s, run).lanes[id].queue == s.lanes[id].queue[Count(run, id, Pop)..]
    decreases |run|
  {
    if run != [] {
      InvKept(s, run[0]);
      UnadmittedEvent(s, run[0], id);
      PopsBounded(Apply(s, run[0]), run[1..], id);
    }
  }

  /**
   * Once its queue is empty a reader that is still not admitted has made no new attempt, and was refused at
   * most once more, by an attempt that had seen the queue non-empty: its next attempt is admitted.
   */
  lemma {:induction false} RefusalsBounded(s: Pool, run: seq<Event>, id: LaneId)
    requires Inv(s) && Legal(s, run) && StaysUnadmitted(s, run, id)
    requires s.lanes[id].queue == []
    ensures Count(run, id, Refuse) <= if s.lanes[id].reader.Loading? then 1 else 0
    ensures Count(run, id, Probe) == 0
    decreases |run|
  {
    if run != [] {
      InvKept(s, run[0]);
      UnadmittedEvent(s, run[0], id);
      RefusalsBounded(Apply(s, run[0]), run[1..], id);
    }
  }

  /** An attempt that starts on an empty queue is admitted, whatever the counter says. */
  lemma EmptyQueueAdmits(s: Pool, id: LaneId, to: Option<LaneId>)
    requires id in s.lanes && s.lanes[id].queue == [] && Enabled(s, Act(id, Probe, to))
    ensures Apply(s, Act(id, Probe, to)).lanes[id].reader == Taking(s.lanes[id].reader.chunk)
  {
  }

  /** The reader's own actions in a run. */
  function Tries(run: seq<Event>, id: LaneId): nat {
    if run == [] then 0
    else (if run[0].Act? && run[0].id == id && ByReader(run[0].action) then 1 else 0) + Tries(run[1..], id)
  }

  /** What a reader can do with an empty queue before it starts an attempt. */
  function TriesLeft(r: Reader): nat
    requires Unadmitted(r)
  {
    match r
    case Loading(_) => 4
    case Selecting(_, own, pool) => 1 + (if own then 0 else 1) + (if pool then 0 else 1)
    case Probing(_, _) => 0
  }

  lemma TryUsed(l: Lane, a: Action)
    requires Ready(l, a) && l.queue == [] && Unadmitted(l.reader) && Unadmitted(Step(l, a).reader)
    ensures TriesLeft(Step(l, a).reader) + (if ByReader(a) then 1 else 0) <= TriesLeft(l.reader)
  {
  }

  /**
   * With an empty queue a reader takes at most four actions of its own before its chunk is admitted or given
   * up, in every run and whatever the counter and all other lanes do.
   */
  lemma {:induction false} AdmittedAfterFewTries(s: Pool, run: seq<Event>, id: LaneId)
    requires Inv(s) && Legal(s, run) && StaysUnadmitted(s, run, id) && s.lanes[id].queue == []
    ensures Tries(run, id) <= TriesLeft(s.lanes[id].reader) <= 4
    decreases |run|
  {
    if run != [] {
      var e := run[0];
      InvKept(s, e);
      UnadmittedEvent(s, e, id);
      if e.Act? && e.id == id {
        TryUsed(s.lanes[id], e.action);
      } else {
        LaneFrame(s, e, id);
      }
      AdmittedAfterFewTries(Apply(s, e), run[1..], id);
    }
  }

  /**
   * Bounded wait: a reader held back with k blocks in its queue sees at most k of them popped. Once they are,
   * it takes at most four actions of its own without starting an attempt, and any attempt it starts is
   * admitted, in every run and whatever the counter and all other lanes do.
   */
  lemma BoundedWait(s: Pool, first: seq<Event>, second: seq<Event>, id: LaneId)
    requires Inv(s) && Legal(s, first) && StaysUnadmitted(s, first, id)
    requires Legal(Exec(s, first), second) && StaysUnadmitted(Exec(s, first), second, id)
    ensures Count(first, id, Pop) <= |s.lanes[id].queue|
    ensures Count(first, id, Pop) == |s.lanes[id].queue| ==>
      var t := Exec(Exec(s, first), second);
      && id in t.lanes && Count(second, id, Pop) == 0 && Tries(second, id) <= 4
      && forall to :: Enabled(t, Act(id, Probe, to)) ==> Apply(t, Act(id, Probe, to)).lanes[id].reader.Taking?
  {
    PopsBounded(s, first, id);
    if Count(first, id, Pop) == |s.lanes[id].queue| {
      var m := Exec(s, first);
      RunKeepsInv(s, first);
      StaysAtStart(m, second, id);
      PopsBounded(m, second, id);
      AdmittedAfterFewTries(m, second, id);
      var t := Exec(m, second);
      forall to | Enabled(t, Act(id, Probe, to)) ensures Apply(t, Act(id, Probe, to)).lanes[id].reader.Taking? {
        EmptyQueueAdmits(t, id, to);
      }
    }
  }

  lemma StaysAtStart(s: Pool, run: seq<Event>, id: LaneId)
    requires Legal(s, run) && StaysUnadmitted(s, run, id)
    ensures id in s.lanes && Unadmitted(s.lanes[id].reader)
  {
  }
}
