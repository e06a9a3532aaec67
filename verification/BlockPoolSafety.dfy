/** What every step of the block pool keeps, and the safety results over whole runs. */
module BlockPoolSafety {
  import opened Common
  import opened Bytes
  import opened MapSum
  import opened BlockPool

  // ----- weights of a lane -----

  /** Blocks in the queue; during Drop, blocks not yet released. */
  function Queued(l: Lane): int {
    if l.phase.Alive? then |l.queue| else l.phase.left
  }

  /** Blocks the lane has added to the counter and not yet subtracted. */
  function Credit(l: Lane): int {
    Queued(l) + (if l.reader.Pushing? then 1 else 0) + (if l.writer.Releasing? then 1 else 0)
  }

  /** Blocks beyond the first that are queued, about to be queued, or admitted and about to be counted. */
  function Excess(l: Lane): int {
    var held := Queued(l) + (if l.reader.Taking? || l.reader.Pushing? then 1 else 0);
    if held == 0 then 0 else held - 1
  }

  function QueuedBytes(l: Lane): int {
    if l.phase.Alive? then |Flatten(l.queue)| else 0
  }

  // ----- the invariant of one lane -----

  function ReaderHeld(r: Reader): Bytes {
    match r
    case Reading => []
    case Signalling => []
    case ReaderClosing(lost) => lost
    case ReaderExited(lost) => lost
    case _ => r.chunk
  }

  function WriterHeld(w: Writer): Bytes {
    match w
    case Releasing(c) => c
    case NotifyingPool(c) => c
    case NotifyingOwn(c) => c
    case Writing(c) => c
    case WriterClosing(unsent) => unsent
    case WriterExited(unsent) => unsent
    case _ => []
  }

  /** Bytes read are exactly bytes sent, then the writer's chunk, the queue and the reader's chunk. */
  ghost predicate Balanced(l: Lane) {
    l.prefix + l.source == l.sink + WriterHeld(l.writer) + Flatten(l.queue) + ReaderHeld(l.reader)
  }

  ghost predicate Accounted(l: Lane) {
    && l.counted <= |l.sink|
    && (l.writer.WriterClosing? || l.writer.WriterExited? || l.counted == |l.sink|)
  }

  ghost predicate ChunkSized(c: Bytes) {
    0 < |c| <= IO_BUFFER
  }

  ghost predicate Sized(l: Lane) {
    && (forall i :: 0 <= i < |l.queue| ==> ChunkSized(l.queue[i]))
    && (l.reader.Reading? || l.reader.Signalling? || l.reader.ReaderClosing? || l.reader.ReaderExited?
        || ChunkSized(l.reader.chunk))
  }

  /** Queue and program counters agree: waiters, pop on a non-empty queue, Drop only after both tasks. */
  ghost predicate Consistent(l: Lane) {
    && (l.provideNotify.waiter.Absent? <==> l.writer != Listening(true))
    && (l.consumeNotify.waiter.Absent? <==> !(l.reader.Selecting? && l.reader.own))
    && (l.writer.Popping? ==> l.queue != [])
    && (l.reader.Taking? || l.reader.Pushing? || l.writer.Releasing? ==> l.phase.Alive?)
    && (l.phase.Dropping? ==> Ended(l) && l.phase.left <= |l.queue|)
  }

  /** The writer popped a block and has still to notify the reader. */
  predicate AboutToNotify(w: Writer) {
    w.Releasing? || w.NotifyingPool? || w.NotifyingOwn?
  }

  /** No lost wakeup, in either direction. */
  ghost predicate Wakeful(l: Lane) {
    && (l.writer == Listening(false) && l.queue != [] ==> l.provideNotify.permit || l.reader.Signalling?)
    && (l.writer == Listening(true) && l.queue != [] ==> l.provideNotify.waiter.Handed? || l.reader.Signalling?)
    && ((l.reader.Loading? || (l.reader.Selecting? && !l.reader.own)) && l.queue == []
        ==> l.consumeNotify.permit || AboutToNotify(l.writer))
    && (l.reader.Selecting? && l.reader.own && l.queue == []
        ==> l.consumeNotify.waiter.Handed? || AboutToNotify(l.writer))
  }

  ghost predicate LaneInv(l: Lane) {
    Balanced(l) && Accounted(l) && Sized(l) && Consistent(l) && Wakeful(l)
  }

  lemma NewLaneInv(prefix: Bytes)
    ensures LaneInv(NewLane(prefix))
  {
    assert Flatten([]) == [];
  }

  lemma PushBalanced(l: Lane)
    requires Balanced(l) && Ready(l, Push)
    ensures Balanced(Step(l, Push))
  {
    var c := l.reader.chunk;
    FlattenAppend(l.queue, [c]);
    FlattenSingleton(c);
    var sent := l.sink + WriterHeld(l.writer);
    Regroup(sent, Flatten(l.queue), c);
    assert sent + (Flatten(l.queue) + c) + [] == sent + (Flatten(l.queue) + c);
  }

  lemma PopBalanced(l: Lane)
    requires Balanced(l) && Ready(l, Pop)
    ensures Balanced(Step(l, Pop))
  {
    var c, rest := l.queue[0], Flatten(l.queue[1..]);
    assert Flatten(l.queue) == c + rest;
    assert l.sink + [] + (c + rest) + ReaderHeld(l.reader) == l.sink + c + rest + ReaderHeld(l.reader);
  }

  lemma WriteBalanced(l: Lane, a: Action)
    requires Balanced(l) && Ready(l, a) && (a.WriteOk? || a.WriteFailed?)
    ensures Balanced(Step(l, a))
  {
    var c := l.writer.chunk;
    var k := if a.WriteOk? then |c| else a.sent;
    var tail := Flatten(l.queue) + ReaderHeld(l.reader);
    assert l.sink + c + Flatten(l.queue) + ReaderHeld(l.reader) == l.sink + c[..k] + c[k..] + Flatten(l.queue) + ReaderHeld(l.reader);
  }

  lemma ReadBalanced(l: Lane, a: Action)
    requires Balanced(l) && Ready(l, a) && a.ReadChunk?
    ensures Balanced(Step(l, a))
  {
    var sent := l.sink + WriterHeld(l.writer) + Flatten(l.queue);
    assert l.prefix + (l.source + a.data) == (l.prefix + l.source) + a.data == sent + [] + a.data == sent + a.data;
  }

  /** The actions that move bytes of the stream into, along or out of a lane. */
  predicate MovesBytes(a: Action) {
    a.ReadChunk? || a.Push? || a.Pop? || a.WriteOk? || a.WriteFailed?
  }

  lemma ReaderHeldKept(l: Lane, a: Action)
    requires Ready(l, a) && !MovesBytes(a)
    ensures ReaderHeld(Step(l, a).reader) == ReaderHeld(l.reader)
  {
  }

  lemma WriterHeldKept(l: Lane, a: Action)
    requires Ready(l, a) && !MovesBytes(a)
    ensures WriterHeld(Step(l, a).writer) == WriterHeld(l.writer)
  {
  }

  lemma StreamKept(l: Lane, a: Action)
    requires Ready(l, a) && !MovesBytes(a)
    ensures var l' := Step(l, a);
      l'.prefix == l.prefix && l'.source == l.source && l'.sink == l.sink && l'.queue == l.queue
  {
  }

  lemma StillBalanced(l: Lane, l': Lane)
    requires Balanced(l)
    requires l'.prefix == l.prefix && l'.source == l.source && l'.sink == l.sink && l'.queue == l.queue
    requires ReaderHeld(l'.reader) == ReaderHeld(l.reader) && WriterHeld(l'.writer) == WriterHeld(l.writer)
    ensures Balanced(l')
  {
  }

  lemma BalancedKept(l: Lane, a: Action)
    requires Balanced(l) && Ready(l, a)
    ensures Balanced(Step(l, a))
  {
    if a.ReadChunk? {
      ReadBalanced(l, a);
    } else if a.Push? {
      PushBalanced(l);
    } else if a.Pop? {
      PopBalanced(l);
    } else if MovesBytes(a) {
      WriteBalanced(l, a);
    } else {
      ReaderHeldKept(l, a);
      WriterHeldKept(l, a);
      StreamKept(l, a);
      StillBalanced(l, Step(l, a));
    }
  }

  /** The actions of the reader task; all others are the writer task's or Drop's. */
  predicate ByReader(a: Action) {
    || a.ReadChunk? || a.ReadEnd? || a.CancelRead? || a.CancelOffer? || a.Probe? || a.Approve? || a.Refuse?
    || a.Take? || a.Push? || a.Signal? || a.EnrollOwn? || a.EnrollPoolReady? || a.EnrollPoolPending?
    || a.WakeOwn? || a.WakePool? || a.CancelProvide? || a.CloseReader?
  }

  lemma AccountedKept(l: Lane, a: Action)
    requires Accounted(l) && Ready(l, a)
    ensures Accounted(Step(l, a))
  {
  }

  lemma SizedKept(l: Lane, a: Action)
    requires Sized(l) && Ready(l, a)
    ensures Sized(Step(l, a))
  {
  }

  lemma ReaderKeepsConsistent(l: Lane, a: Action)
    requires Consistent(l) && Ready(l, a) && ByReader(a)
    ensures Consistent(Step(l, a))
  {
  }

  lemma WriterKeepsConsistent(l: Lane, a: Action)
    requires Consistent(l) && Ready(l, a) && !ByReader(a)
    ensures Consistent(Step(l, a))
  {
  }

  lemma ReaderKeepsWakeful(l: Lane, a: Action)
    requires Consistent(l) && Wakeful(l) && Ready(l, a) && ByReader(a)
    ensures Wakeful(Step(l, a))
  {
  }

  lemma WriterKeepsWakeful(l: Lane, a: Action)
    requires Consistent(l) && Wakeful(l) && Ready(l, a) && !ByReader(a)
    ensures Wakeful(Step(l, a))
  {
  }

  lemma LaneInvKept(l: Lane, a: Action)
    requires LaneInv(l) && Ready(l, a)
    ensures LaneInv(Step(l, a))
  {
    BalancedKept(l, a);
    AccountedKept(l, a);
    SizedKept(l, a);
    if ByReader(a) {
      ReaderKeepsConsistent(l, a);
      ReaderKeepsWakeful(l, a);
    } else {
      WriterKeepsConsistent(l, a);
      WriterKeepsWakeful(l, a);
    }
  }

  lemma LaneWeights(l: Lane)
    requires LaneInv(l)
    ensures 0 <= Excess(l) <= Credit(l) <= Excess(l) + 2
    ensures 0 <= Queued(l) <= Excess(l) + 1
  {
  }

  lemma CreditMoves(l: Lane, a: Action)
    requires Consistent(l) && Ready(l, a)
    ensures Credit(Step(l, a)) == Credit(l) + TakenDelta(a)
  {
  }

  lemma ExcessShrinks(l: Lane, a: Action)
    requires Consistent(l) && Ready(l, a) && !a.Approve?
    ensures Excess(Step(l, a)) <= Excess(l)
  {
  }

  lemma CreditDelta(l: Lane, a: Action)
    requires LaneInv(l) && Ready(l, a)
    ensures Credit(Step(l, a)) == Credit(l) + TakenDelta(a)
    ensures 0 <= Excess(Step(l, a)) <= Credit(Step(l, a))
    ensures !a.Approve? ==> Excess(Step(l, a)) <= Excess(l)
  {
    CreditMoves(l, a);
    if !a.Approve? { ExcessShrinks(l, a); }
    LaneInvKept(l, a);
    LaneWeights(Step(l, a));
  }

  // ----- the invariant of the pool -----

  predicate PoolSelecting(l: Lane) {
    l.reader.Selecting? && l.reader.pool
  }

  predicate InPoolSelect(s: Pool, id: LaneId) {
    id in s.lanes && PoolSelecting(s.lanes[id])
  }

  /** The pool's waiter list holds exactly the readers whose select has queued its pool future. */
  ghost predicate Registered(s: Pool) {
    && s.waiting !! s.handed
    && (forall id :: id in s.waiting || id in s.handed <==> InPoolSelect(s, id))
  }

  ghost predicate TokensSet(s: Pool) {
    forall id <- s.lanes :: s.lanes[id].reader.ReaderExited? || s.lanes[id].writer.WriterExited? ==> id.conn in s.cancelled
  }

  ghost predicate Bounded(s: Pool) {
    Sum(s.lanes, Excess) <= if s.limit == 0 then 0 else s.limit - 1
  }

  ghost predicate Inv(s: Pool) {
    && s.lanes.Keys <= s.spawned
    && (forall id <- s.lanes :: LaneInv(s.lanes[id]))
    && Registered(s)
    && TokensSet(s)
    && s.taken == Sum(s.lanes, Credit)
    && Bounded(s)
  }

  lemma InitInv(limit: nat)
    ensures Inv(Init(limit))
  {
  }

  lemma SpawnKeepsInv(s: Pool, e: Event)
    requires Inv(s) && Enabled(s, e) && e.Spawn?
    ensures Inv(Apply(s, e))
  {
    NewLaneInv(e.prefix);
    SumInsert(s.lanes, e.id, NewLane(e.prefix), Credit);
    SumInsert(s.lanes, e.id, NewLane(e.prefix), Excess);
    forall id ensures id in s.waiting || id in s.handed <==> InPoolSelect(Apply(s, e), id) {
      assert id in s.waiting || id in s.handed <==> InPoolSelect(s, id);
    }
  }

  lemma RemoveKeepsInv(s: Pool, e: Event)
    requires Inv(s) && Enabled(s, e) && e.Remove?
    ensures Inv(Apply(s, e))
  {
    SumRemove(s.lanes, e.id, Credit);
    SumRemove(s.lanes, e.id, Excess);
    forall id ensures id in s.waiting || id in s.handed <==> InPoolSelect(Apply(s, e), id) {
      assert id in s.waiting || id in s.handed <==> InPoolSelect(s, id);
    }
  }

  lemma PoolSelectingAfter(l: Lane, a: Action)
    requires Ready(l, a)
    ensures PoolSelecting(Step(l, a)) <==> a.EnrollPoolPending? || (PoolSelecting(l) && !LeavesSelect(l, a))
    ensures a.EnrollPoolPending? ==> !PoolSelecting(l)
  {
  }

  lemma ActKeepsRegistered(s: Pool, e: Event)
    requires Registered(s) && Enabled(s, e) && e.Act?
    ensures Registered(Apply(s, e))
  {
    var t := Apply(s, e);
    var l := s.lanes[e.id];
    var waiting, handed := WaitingAfter(s, e.id, e.action), HandedAfter(s, e.id, e.action);
    PoolSelectingAfter(l, e.action);
    assert e.id in s.waiting || e.id in s.handed <==> PoolSelecting(l);
    assert waiting !! handed;
    assert t.waiting + t.handed == waiting + handed;
    forall id ensures id in t.waiting || id in t.handed <==> InPoolSelect(t, id) {
      assert id in s.waiting || id in s.handed <==> InPoolSelect(s, id);
      assert id in t.waiting || id in t.handed <==> id in waiting + handed;
      if id == e.id {
        assert InPoolSelect(t, id) <==> PoolSelecting(Step(l, e.action));
      } else {
        assert id in waiting + handed <==> id in s.waiting || id in s.handed;
      }
    }
  }

  lemma ActKeepsBounded(s: Pool, e: Event)
    requires Inv(s) && Enabled(s, e) && e.Act?
    ensures Apply(s, e).taken == Sum(Apply(s, e).lanes, Credit)
    ensures Bounded(Apply(s, e))
  {
    var t := Apply(s, e);
    var l := s.lanes[e.id];
    CreditDelta(l, e.action);
    SumUpdate(s.lanes, e.id, Step(l, e.action), Credit);
    SumUpdate(s.lanes, e.id, Step(l, e.action), Excess);
    if e.action.Approve? {
      // The load saw a counter below the limit; every lane's excess is covered by its credit.
      forall id <- t.lanes ensures Excess(t.lanes[id]) <= Credit(t.lanes[id]) {
        if id != e.id { assert LaneInv(s.lanes[id]); }
      }
      SumMonotone(t.lanes, Excess, Credit);
    }
  }

  lemma ActKeepsTokens(s: Pool, e: Event)
    requires TokensSet(s) && Enabled(s, e) && e.Act?
    ensures TokensSet(Apply(s, e))
  {
    var t := Apply(s, e);
    var l := s.lanes[e.id];
    if !e.action.CloseReader? && !e.action.CloseWriter? { ExitSetsToken(l, e.action); }
    forall id <- t.lanes | t.lanes[id].reader.ReaderExited? || t.lanes[id].writer.WriterExited?
      ensures id.conn in t.cancelled
    {
      if id != e.id { assert t.lanes[id] == s.lanes[id]; }
    }
  }

  lemma ExitSetsToken(l: Lane, a: Action)
    requires Ready(l, a) && !a.CloseReader? && !a.CloseWriter?
    ensures Step(l, a).reader.ReaderExited? <==> l.reader.ReaderExited?
    ensures Step(l, a).writer.WriterExited? <==> l.writer.WriterExited?
  {
  }

  lemma ActKeepsLanes(s: Pool, e: Event)
    requires Inv(s) && Enabled(s, e) && e.Act?
    ensures forall id <- Apply(s, e).lanes :: LaneInv(Apply(s, e).lanes[id])
  {
    LaneInvKept(s.lanes[e.id], e.action);
    forall id <- Apply(s, e).lanes ensures LaneInv(Apply(s, e).lanes[id]) {
      if id != e.id { assert LaneInv(s.lanes[id]); }
    }
  }

  lemma ActKeepsInv(s: Pool, e: Event)
    requires Inv(s) && Enabled(s, e) && e.Act?
    ensures Inv(Apply(s, e))
  {
    ActKeepsRegistered(s, e);
    ActKeepsBounded(s, e);
    ActKeepsTokens(s, e);
    ActKeepsLanes(s, e);
  }

  lemma InvKept(s: Pool, e: Event)
    requires Inv(s) && Enabled(s, e)
    ensures Inv(Apply(s, e))
  {
    match e {
      case Spawn(_, _) => SpawnKeepsInv(s, e);
      case Act(_, _, _) => ActKeepsInv(s, e);
      case Remove(_) => RemoveKeepsInv(s, e);
    }
  }

  lemma {:induction false} RunKeepsInv(s: Pool, run: seq<Event>)
    requires Inv(s) && Legal(s, run)
    ensures Inv(Exec(s, run)) && Exec(s, run).limit == s.limit
    ensures s.cancelled <= Exec(s, run).cancelled
    decreases |run|
  {
    if run != [] {
      InvKept(s, run[0]);
      RunKeepsInv(Apply(s, run[0]), run[1..]);
    }
  }

  lemma ReachableInv(s: Pool)
    requires Reachable(s)
    ensures Inv(s)
  {
    var run :| Legal(Init(s.limit), run) && Exec(Init(s.limit), run) == s;
    InitInv(s.limit);
    RunKeepsInv(Init(s.limit), run);
  }

  lemma AllLaneWeights(s: Pool)
    requires Inv(s)
    ensures forall id <- s.lanes ::
      0 <= Excess(s.lanes[id]) <= Credit(s.lanes[id]) <= Excess(s.lanes[id]) + 2
      && 0 <= Queued(s.lanes[id]) <= Excess(s.lanes[id]) + 1
  {
    forall id <- s.lanes
      ensures 0 <= Excess(s.lanes[id]) <= Credit(s.lanes[id]) <= Excess(s.lanes[id]) + 2
        && 0 <= Queued(s.lanes[id]) <= Excess(s.lanes[id]) + 1
    {
      LaneWeights(s.lanes[id]);
    }
  }

  // ----- results over every interleaving -----

  /** Queued blocks never exceed limit - 1 plus one per live lane, although the test and the take are separate. */
  lemma QueuedBlocksBound(s: Pool)
    requires Reachable(s)
    ensures Sum(s.lanes, Queued) <= (if s.limit == 0 then 0 else s.limit - 1) + |s.lanes|
    ensures 0 <= s.taken <= (if s.limit == 0 then 0 else s.limit - 1) + 2 * |s.lanes|
  {
    ReachableInv(s);
    AllLaneWeights(s);
    SumShifted(s.lanes, Queued, Excess, 1);
    SumShifted(s.lanes, Credit, Excess, 2);
    SumMonotone(s.lanes, _ => 0, Credit);
    SumZero(s.lanes, _ => 0);
  }

  lemma {:induction false} FlattenBound(chunks: seq<Bytes>)
    requires forall i :: 0 <= i < |chunks| ==> ChunkSized(chunks[i])
    ensures |Flatten(chunks)| <= IO_BUFFER * |chunks|
  {
    if chunks != [] {
      assert ChunkSized(chunks[0]);
      FlattenBound(chunks[1..]);
    }
  }

  function ScaledQueued(l: Lane): int {
    IO_BUFFER * Queued(l)
  }

  lemma {:induction false} SumScaled(lanes: map<LaneId, Lane>)
    ensures Sum(lanes, ScaledQueued) == IO_BUFFER * Sum(lanes, Queued)
    decreases |lanes|
  {
    if lanes != map[] {
      var k :| k in lanes;
      SumRemove(lanes, k, ScaledQueued);
      SumRemove(lanes, k, Queued);
      SumScaled(lanes - {k});
    }
  }

  /** The number of blocks main computes from the configured buffer size, rounding up. */
  function BlockNumber(bufferSize: nat): nat {
    (bufferSize + IO_BUFFER - 1) / IO_BUFFER
  }

  /** It is the least number of I/O buffers that hold the configured size. */
  lemma BlockNumberRoundsUp(bufferSize: nat)
    ensures bufferSize <= 2048 * BlockNumber(bufferSize) < bufferSize + 2048
  {
  }

  /** Buffered bytes stay strictly below the configured size plus one I/O buffer per live lane. */
  lemma QueuedBytesBound(s: Pool, bufferSize: nat)
    requires Reachable(s) && 0 < bufferSize && s.limit == BlockNumber(bufferSize)
    ensures Sum(s.lanes, QueuedBytes) < bufferSize + IO_BUFFER * |s.lanes|
  {
    ReachableInv(s);
    QueuedBlocksBound(s);
    forall id <- s.lanes ensures QueuedBytes(s.lanes[id]) <= ScaledQueued(s.lanes[id]) {
      FlattenBound(s.lanes[id].queue);
    }
    SumMonotone(s.lanes, QueuedBytes, ScaledQueued);
    SumScaled(s.lanes);
  }

  /** The counter equals the blocks held, in every state; it is 0 once every lane is gone. */
  lemma PoolConservation(s: Pool)
    requires Reachable(s)
    ensures s.taken == Sum(s.lanes, Credit)
    ensures s.lanes == map[] ==> s.taken == 0
  {
    ReachableInv(s);
  }

  lemma ReleaseHasCredit(l: Lane)
    requires LaneInv(l) && (Ready(l, Release) || Ready(l, DropRelease))
    ensures 1 <= Credit(l)
  {
  }

  /** Neither a release nor a pop can fail: the counter is positive and the queue is not empty. */
  lemma ReleaseAndPopSafe(s: Pool, id: LaneId)
    requires Reachable(s) && id in s.lanes
    ensures Ready(s.lanes[id], Release) || Ready(s.lanes[id], DropRelease) ==> 1 <= s.taken
    ensures s.lanes[id].writer.Popping? ==> s.lanes[id].queue != []
  {
    ReachableInv(s);
    assert Consistent(s.lanes[id]);
    if Ready(s.lanes[id], Release) || Ready(s.lanes[id], DropRelease) {
      ReleaseHasCredit(s.lanes[id]);
      AllLaneWeights(s);
      SumAtLeast(s.lanes, id, Credit);
    }
  }

  /** The relay loses, repeats and reorders nothing: see Balanced for what is undelivered. */
  lemma RelayDelivery(s: Pool, id: LaneId)
    requires Reachable(s) && id in s.lanes
    ensures var l := s.lanes[id]; l.prefix + l.source == l.sink + WriterHeld(l.writer) + Flatten(l.queue) + ReaderHeld(l.reader)
    ensures s.lanes[id].sink <= s.lanes[id].prefix + s.lanes[id].source
    ensures s.lanes[id].counted <= |s.lanes[id].sink|
    ensures !(s.lanes[id].writer.WriterClosing? || s.lanes[id].writer.WriterExited?) ==> s.lanes[id].counted == |s.lanes[id].sink|
  {
    ReachableInv(s);
    assert LaneInv(s.lanes[id]);
  }

  /** A suspended task that has work is already notified, or its notifier is about to act. */
  lemma NoLostWakeup(s: Pool, id: LaneId)
    requires Reachable(s) && id in s.lanes
    ensures var l := s.lanes[id];
      l.writer == Listening(true) && l.queue != [] ==> l.provideNotify.waiter.Handed? || l.reader.Signalling?
    ensures var l := s.lanes[id];
      Parked(l) && l.queue == [] ==> l.consumeNotify.waiter.Handed? || AboutToNotify(l.writer)
    ensures var l := s.lanes[id];
      Parked(l) && l.writer == Listening(true) ==> l.consumeNotify.waiter.Handed? || l.provideNotify.waiter.Handed?
  {
    ReachableInv(s);
    assert LaneInv(s.lanes[id]);
  }

  // ----- delivery, in terms of what happened in the run -----

  /** The payload the lane was spawned with. */
  function PayloadIn(run: seq<Event>, id: LaneId): Bytes {
    if run == [] then []
    else if run[0].Spawn? && run[0].id == id then run[0].prefix
    else PayloadIn(run[1..], id)
  }

  /** All data that reads of the lane's source returned, in order. */
  function ReadIn(run: seq<Event>, id: LaneId): Bytes {
    if run == [] then []
    else (if run[0].Act? && run[0].id == id && run[0].action.ReadChunk? then run[0].action.data else []) + ReadIn(run[1..], id)
  }

  lemma StreamOfStep(l: Lane, a: Action)
    requires Ready(l, a)
    ensures Step(l, a).prefix == l.prefix
    ensures Step(l, a).source == if a.ReadChunk? then l.source + a.data else l.source
  {
  }

  lemma OneSpawn(s: Pool, e: Event, id: LaneId)
    requires s.lanes.Keys <= s.spawned && Enabled(s, e)
    ensures Apply(s, e).lanes.Keys <= Apply(s, e).spawned && s.spawned <= Apply(s, e).spawned
    ensures id !in s.lanes && id in s.spawned ==> id !in Apply(s, e).lanes
    ensures id !in s.spawned && id in Apply(s, e).spawned ==> e.Spawn? && e.id == id && Apply(s, e).lanes[id] == NewLane(e.prefix)
  {
  }

  lemma {:induction false} NeverBack(s: Pool, run: seq<Event>, id: LaneId)
    requires s.lanes.Keys <= s.spawned && Legal(s, run) && id !in s.lanes && id in s.spawned
    ensures id !in Exec(s, run).lanes
    decreases |run|
  {
    if run != [] {
      OneSpawn(s, run[0], id);
      NeverBack(Apply(s, run[0]), run[1..], id);
    }
  }

  lemma StreamOfEvent(s: Pool, e: Event, id: LaneId)
    requires s.lanes.Keys <= s.spawned && Enabled(s, e) && id in s.lanes && id in Apply(s, e).lanes
    ensures Apply(s, e).lanes[id].prefix == s.lanes[id].prefix
    ensures Apply(s, e).lanes[id].source == s.lanes[id].source + ReadIn([e], id)
  {
    assert ReadIn([e], id) == (if e.Act? && e.id == id && e.action.ReadChunk? then e.action.data else []) + ReadIn([], id);
    if e.Act? && e.id == id {
      StreamOfStep(s.lanes[id], e.action);
    } else {
      assert Apply(s, e).lanes[id] == s.lanes[id];
    }
  }

  /** A live lane's stream grows by exactly what a run reads. */
  lemma {:induction false} StreamOfRun(s: Pool, run: seq<Event>, id: LaneId)
    requires s.lanes.Keys <= s.spawned && Legal(s, run) && id in s.lanes && id in Exec(s, run).lanes
    ensures Exec(s, run).lanes[id].prefix == s.lanes[id].prefix
    ensures Exec(s, run).lanes[id].source == s.lanes[id].source + ReadIn(run, id)
    decreases |run|
  {
    if run != [] {
      var t := Apply(s, run[0]);
      OneSpawn(s, run[0], id);
      if id !in t.lanes {
        NeverBack(t, run[1..], id);
        assert false;
      }
      StreamOfEvent(s, run[0], id);
      StreamOfRun(t, run[1..], id);
      assert ReadIn([run[0]], id) + ReadIn(run[1..], id) == ReadIn(run, id) by { assert [run[0]][1..] == []; }
      Regroup(s.lanes[id].source, ReadIn([run[0]], id), ReadIn(run[1..], id));
    }
  }

  /** A lane carries the payload of its spawn and the data of its reads. */
  lemma {:induction false} LaneStream(s: Pool, run: seq<Event>, id: LaneId)
    requires s.lanes.Keys <= s.spawned && Legal(s, run) && id !in s.spawned && id in Exec(s, run).lanes
    ensures Exec(s, run).lanes[id].prefix == PayloadIn(run, id)
    ensures Exec(s, run).lanes[id].source == ReadIn(run, id)
    decreases |run|
  {
    var e, t := run[0], Apply(s, run[0]);
    OneSpawn(s, e, id);
    if id in t.spawned {
      StreamOfRun(t, run[1..], id);
      assert NewLane(e.prefix).prefix == e.prefix && NewLane(e.prefix).source == [];
    } else {
      LaneStream(t, run[1..], id);
    }
    assert ReadIn(run, id) == [] + ReadIn(run[1..], id);
  }

  /**
   * Delivery over whole runs: of the payload a live lane was opened with and of everything its reads returned,
   * the sink has a prefix, counted to the byte until the writer has ended; the rest is the writer's chunk, the
   * queue and the reader's chunk.
   */
  lemma RunDelivery(limit: nat, run: seq<Event>, id: LaneId)
    requires Legal(Init(limit), run) && id in Exec(Init(limit), run).lanes
    ensures var l := Exec(Init(limit), run).lanes[id];
      && PayloadIn(run, id) + ReadIn(run, id) == l.sink + WriterHeld(l.writer) + Flatten(l.queue) + ReaderHeld(l.reader)
      && l.sink <= PayloadIn(run, id) + ReadIn(run, id)
      && l.counted <= |l.sink| && (!(l.writer.WriterClosing? || l.writer.WriterExited?) ==> l.counted == |l.sink|)
  {
    var s := Exec(Init(limit), run);
    RunKeepsInv(Init(limit), run);
    LaneStream(Init(limit), run, id);
    RelayDelivery(s, id);
  }
}
