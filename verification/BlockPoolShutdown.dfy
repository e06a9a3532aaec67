/** How lanes end: what is delivered after the source has ended, and that a cancelled lane gets itself closed. */
module BlockPoolShutdown {
  import opened Common
  import opened Bytes
  import opened BlockPool
  import opened BlockPoolSafety
  import opened BlockPoolProgress
  import opened BlockPoolWitness

  lemma ActEnabled(s: Pool, id: LaneId, a: Action)
    requires id in s.lanes && Ready(s.lanes[id], a) && SharedGuard(s, id, a)
    ensures Enabled(s, Act(id, a, Target(s, id, a)))
  {
  }

  // ----- delivery after the end of the source -----

  /** The source has ended, or the reader left its loop, with no chunk in the reader's hand. */
  predicate SourceDone(l: Lane) {
    l.reader == ReaderClosing([]) || l.reader == ReaderExited([])
  }

  /** The writer is past the last point before its next pop at which it can see the token. */
  predicate Committed(l: Lane) {
    l.writer.Rechecking? || l.writer.Popping? || (l.writer == Listening(false) && l.provideNotify.permit)
  }

  /** Nothing is queued but a block the writer is committed to pop, and it gave up no part of a chunk. */
  predicate Spared(l: Lane) {
    && |l.queue| <= (if Committed(l) then 1 else 0)
    && (l.writer.WriterClosing? || l.writer.WriterExited? ==> l.writer.unsent == [])
  }

  predicate AllSent(l: Lane) {
    l.sink == l.prefix + l.source
  }

  /** A finished lane has delivered everything exactly when it holds nothing: no block, no chunk of either task. */
  lemma DeliveredIfNothingHeld(s: Pool, id: LaneId)
    requires Inv(s) && id in s.lanes && Ended(s.lanes[id])
    ensures var l := s.lanes[id];
      AllSent(l) <==> l.reader == ReaderExited([]) && l.writer == WriterExited([]) && l.queue == []
  {
    var l := s.lanes[id];
    assert LaneInv(l);
    if l.queue != [] {
      assert ChunkSized(l.queue[0]);
      assert |Flatten(l.queue)| >= |l.queue[0]|;
    }
    assert |l.prefix + l.source| == |l.sink| + |WriterHeld(l.writer)| + |Flatten(l.queue)| + |ReaderHeld(l.reader)|;
    if l.reader == ReaderExited([]) && l.writer == WriterExited([]) && l.queue == [] {
      assert l.sink + [] + [] + [] == l.sink;
    }
  }

  predicate WriteFails(e: Event, id: LaneId) {
    e.Act? && e.id == id && e.action.WriteFailed?
  }

  predicate NoFailure(run: seq<Event>, id: LaneId) {
    forall i :: 0 <= i < |run| ==> !WriteFails(run[i], id)
  }

  lemma SparedStep(l: Lane, a: Action)
    requires LaneInv(l) && Ready(l, a) && SourceDone(l) && Spared(l) && !a.WriteFailed?
    ensures SourceDone(Step(l, a)) && Spared(Step(l, a))
  {
  }

  /** The lane, if it is still there, will deliver all it holds. */
  predicate Safe(s: Pool, id: LaneId) {
    id in s.spawned && (id in s.lanes ==> SourceDone(s.lanes[id]) && Spared(s.lanes[id]))
  }

  lemma SafeKept(s: Pool, e: Event, id: LaneId)
    requires Inv(s) && Enabled(s, e) && Safe(s, id) && !WriteFails(e, id)
    ensures Safe(Apply(s, e), id)
  {
    if id in Apply(s, e).lanes {
      if e.Act? && e.id == id {
        assert LaneInv(s.lanes[id]);
        SparedStep(s.lanes[id], e.action);
      } else {
        LaneFrame(s, e, id);
      }
    }
  }

  lemma {:induction false} RunKeepsSafe(s: Pool, run: seq<Event>, id: LaneId)
    requires Inv(s) && Legal(s, run) && Safe(s, id) && NoFailure(run, id)
    ensures Inv(Exec(s, run)) && Safe(Exec(s, run), id)
    decreases |run|
  {
    if run != [] {
      assert !WriteFails(run[0], id);
      assert forall i :: 0 <= i < |run| - 1 ==> run[1..][i] == run[i + 1];
      InvKept(s, run[0]);
      SafeKept(s, run[0], id);
      RunKeepsSafe(Apply(s, run[0]), run[1..], id);
    }
  }

  /** The next step of a lane on the way to losing a block: see the token wherever it can be seen. */
  function LosingNext(l: Lane): Action {
    if l.reader.ReaderClosing? then CloseReader
    else
      match l.writer
      case Idle => CancelConsume
      case Listening(enrolled) => if enrolled then CancelConsume else Listen
      case Rechecking => Recheck
      case Popping => Pop
      case Releasing(_) => Release
      case NotifyingPool(_) => NotifyPool
      case NotifyingOwn(_) => NotifyOwn
      case Writing(_) => WriteOk
      case _ => CloseWriter
  }

  function LosingLeft(l: Lane): nat {
    (if l.reader.ReaderClosing? then 1 else 0)
    + match l.writer
      case Listening(enrolled) => if enrolled then 2 else 9
      case Rechecking => 8
      case Popping => 7
      case Releasing(_) => 6
      case NotifyingPool(_) => 5
      case NotifyingOwn(_) => 4
      case Writing(_) => 3
      case Idle => 2
      case WriterClosing(_) => 1
      case WriterExited(_) => 0
  }

  lemma LosingStep(l: Lane)
    requires LaneInv(l) && SourceDone(l) && !Spared(l) && !Ended(l)
    ensures var a := LosingNext(l);
      Ready(l, a) && SourceDone(Step(l, a)) && !Spared(Step(l, a)) && LosingLeft(Step(l, a)) < LosingLeft(l)
  {
  }

  lemma NoFailurePrepend(e: Event, run: seq<Event>, id: LaneId)
    requires !WriteFails(e, id) && NoFailure(run, id)
    ensures NoFailure([e] + run, id)
  {
  }

  lemma {:induction false} LosingRun(s: Pool, id: LaneId) returns (run: seq<Event>)
    requires Inv(s) && id in s.lanes && SourceDone(s.lanes[id]) && !Spared(s.lanes[id])
    ensures Legal(s, run) && NoFailure(run, id) && id in Exec(s, run).lanes
    ensures Ended(Exec(s, run).lanes[id]) && !AllSent(Exec(s, run).lanes[id])
    decreases LosingLeft(s.lanes[id])
  {
    var l := s.lanes[id];
    assert LaneInv(l);
    if Ended(l) {
      run := [];
      DeliveredIfNothingHeld(s, id);
    } else {
      var a := LosingNext(l);
      LosingStep(l);
      var e := Act(id, a, Target(s, id, a));
      ActEnabled(s, id, a);
      InvKept(s, e);
      var rest := LosingRun(Apply(s, e), id);
      RunPrepend(s, e, rest);
      NoFailurePrepend(e, rest, id);
      run := [e] + rest;
    }
  }

  /** However the run goes on, unless a write fails, the lane ends with everything delivered. */
  ghost predicate AlwaysDelivers(s: Pool, id: LaneId) {
    forall run :: Legal(s, run) && NoFailure(run, id) && id in Exec(s, run).lanes && Ended(Exec(s, run).lanes[id]) ==>
      AllSent(Exec(s, run).lanes[id])
  }

  /**
   * The moment the source has ended decides: all that was read is delivered in every run without a write error
   * if and only if the queue then holds no more than a block the writer is already committed to pop.
   */
  lemma EndOfFileDelivery(s: Pool, id: LaneId)
    requires Reachable(s) && id in s.lanes && SourceDone(s.lanes[id])
    ensures AlwaysDelivers(s, id) <==> Spared(s.lanes[id])
  {
    ReachableInv(s);
    if Spared(s.lanes[id]) {
      forall run | Legal(s, run) && NoFailure(run, id) && id in Exec(s, run).lanes && Ended(Exec(s, run).lanes[id])
        ensures AllSent(Exec(s, run).lanes[id])
      {
        RunKeepsSafe(s, run, id);
        DeliveredIfNothingHeld(Exec(s, run), id);
      }
    } else {
      var run := LosingRun(s, id);
      assert Legal(s, run) && NoFailure(run, id);
    }
  }

  // ----- a concrete loss -----

  /** One lane, with one block queued, on a pool of limit 1. */
  function Solo(l: Lane): Pool {
    Pool(1, 1, false, {}, {}, {}, {LaneAt(0)}, map[LaneAt(0) := l])
  }

  lemma SoloEnds()
    ensures Reachable(Solo(Filled(1).(reader := ReaderClosing([]))))
  {
    FillFirst(1, 1);
    var s := Solo(Filled(1));
    var e := Act(LaneAt(0), ReadEnd, None);
    assert s == FirstFilled(1, 1);
    ReachStep(s, e);
    assert Apply(s, e).lanes == map[LaneAt(0) := Filled(1).(reader := ReaderClosing([]))];
  }

  /**
   * The smallest loss: the source ends while its one block is queued and the writer idle; both tasks end without
   * an error and the block is never written.
   */
  lemma EndOfFileMayDropData() returns (s: Pool, run: seq<Event>)
    ensures Reachable(s) && LaneAt(0) in s.lanes && SourceDone(s.lanes[LaneAt(0)]) && s.lanes[LaneAt(0)].writer.Idle?
    ensures Legal(s, run) && NoFailure(run, LaneAt(0)) && LaneAt(0) in Exec(s, run).lanes
    ensures Ended(Exec(s, run).lanes[LaneAt(0)]) && !AllSent(Exec(s, run).lanes[LaneAt(0)])
  {
    SoloEnds();
    s := Solo(Filled(1).(reader := ReaderClosing([])));
    RepeatLength(1);
    ReachableInv(s);
    run := LosingRun(s, LaneAt(0));
  }

  // ----- cancellation -----

  /** The run consists of steps the lane takes itself, none of them a read. */
  predicate OwnRun(run: seq<Event>, id: LaneId) {
    forall i :: 0 <= i < |run| ==> run[i].Act? && run[i].id == id && Internal(run[i])
  }

  /** The next step of a reader whose token is set. */
  function LeavingNext(s: Pool, l: Lane): Action {
    if l.reader.Reading? then CancelRead
    else if Parked(l) then CancelProvide
    else ReaderNext(s, l)
  }

  /** A bound on a reader's steps: each wakeup it finds may send it through one more attempt. */
  function ReaderStepsLeft(permit: bool, l: Lane): nat {
    var stray := 8 * l.consumeNotify.Tokens() + (if permit then 4 else 0);
    match l.reader
    case Probing(_, _) => 8 + stray
    case Loading(_) => 7 + stray
    case Selecting(_, own, pool) => 4 + (if own then 0 else 1) + (if pool then 0 else 1) + stray
    case Taking(_) => 5
    case Pushing(_) => 4
    case Signalling => 3
    case Reading => 2
    case ReaderClosing(_) => 1
    case ReaderExited(_) => 0
  }

  /** The pool's permit after a reader's action: still there, or passed on by a future that was dropped. */
  predicate PermitPossible(s: Pool, l: Lane, a: Action, permit: bool) {
    permit ==> (s.permit && !a.EnrollPoolReady?) || (LeavesSelect(l, a) && PoolSelecting(l))
  }

  lemma LeavingLaneStep(s: Pool, l: Lane, permit': bool)
    requires LaneInv(l) && !l.reader.ReaderExited?
    requires PermitPossible(s, l, LeavingNext(s, l), permit')
    ensures Ready(l, LeavingNext(s, l))
    ensures ReaderStepsLeft(permit', Step(l, LeavingNext(s, l))) < ReaderStepsLeft(s.permit, l)
  {
  }

  lemma {:induction false} ReaderLeaves(s: Pool, id: LaneId) returns (run: seq<Event>)
    requires Inv(s) && id in s.lanes && id.conn in s.cancelled
    ensures Legal(s, run) && OwnRun(run, id) && |run| <= ReaderStepsLeft(s.permit, s.lanes[id])
    ensures Inv(Exec(s, run)) && id in Exec(s, run).lanes && id.conn in Exec(s, run).cancelled
    ensures Exec(s, run).lanes[id].reader.ReaderExited?
    decreases ReaderStepsLeft(s.permit, s.lanes[id])
  {
    var l := s.lanes[id];
    assert LaneInv(l);
    if l.reader.ReaderExited? {
      run := [];
    } else {
      var a := LeavingNext(s, l);
      var e := Act(id, a, Target(s, id, a));
      LeavingEnabled(s, id);
      InvKept(s, e);
      LeavingLaneStep(s, l, Apply(s, e).permit);
      var rest := ReaderLeaves(Apply(s, e), id);
      RunPrepend(s, e, rest);
      OwnRunConcat([e], rest, id);
      run := [e] + rest;
    }
  }

  lemma LeavingEnabled(s: Pool, id: LaneId)
    requires Inv(s) && id in s.lanes && id.conn in s.cancelled && !s.lanes[id].reader.ReaderExited?
    ensures var a := LeavingNext(s, s.lanes[id]); var e := Act(id, a, Target(s, id, a));
      Enabled(s, e) && Internal(e) && PermitPossible(s, s.lanes[id], a, Apply(s, e).permit)
  {
    var l := s.lanes[id];
    assert id in s.waiting || id in s.handed <==> InPoolSelect(s, id);
    ActEnabled(s, id, LeavingNext(s, l));
  }

  /** The next step of a writer whose token is set. */
  function WriterLeavingNext(l: Lane): Action {
    if l.writer.Idle? || l.writer == Listening(true) then CancelConsume else WriterNext(l)
  }

  function WriterStepsLeft(l: Lane): nat {
    var stray := if l.provideNotify.permit then 6 else 0;
    match l.writer
    case Listening(enrolled) => if enrolled then 2 else 3 + stray
    case Rechecking => if l.queue == [] then 4 + stray else 8
    case Popping => 7
    case Releasing(_) => 6
    case NotifyingPool(_) => 5
    case NotifyingOwn(_) => 4
    case Writing(_) => 3
    case Idle => 2
    case WriterClosing(_) => 1
    case WriterExited(_) => 0
  }

  lemma WriterLeavingStep(l: Lane)
    requires LaneInv(l) && l.reader.ReaderExited? && !l.writer.WriterExited?
    ensures var a := WriterLeavingNext(l);
      Ready(l, a) && Step(l, a).reader.ReaderExited? && WriterStepsLeft(Step(l, a)) < WriterStepsLeft(l)
  {
  }

  lemma {:induction false} WriterLeaves(s: Pool, id: LaneId) returns (run: seq<Event>)
    requires Inv(s) && id in s.lanes && id.conn in s.cancelled && s.lanes[id].reader.ReaderExited?
    ensures Legal(s, run) && OwnRun(run, id) && |run| <= WriterStepsLeft(s.lanes[id])
    ensures id in Exec(s, run).lanes && Ended(Exec(s, run).lanes[id])
    decreases WriterStepsLeft(s.lanes[id])
  {
    var l := s.lanes[id];
    assert LaneInv(l);
    if l.writer.WriterExited? {
      run := [];
    } else {
      var a := WriterLeavingNext(l);
      var e := Act(id, a, Target(s, id, a));
      WriterLeavingStep(l);
      ActEnabled(s, id, a);
      InvKept(s, e);
      var rest := WriterLeaves(Apply(s, e), id);
      RunPrepend(s, e, rest);
      OwnRunConcat([e], rest, id);
      run := [e] + rest;
    }
  }

  lemma StepsLeftBounded(permit: bool, l: Lane)
    ensures ReaderStepsLeft(permit, l) <= 28 && WriterStepsLeft(l) <= 10
  {
  }

  lemma OwnRunConcat(first: seq<Event>, second: seq<Event>, id: LaneId)
    requires OwnRun(first, id) && OwnRun(second, id)
    ensures OwnRun(first + second, id)
  {
  }

  /**
   * Once a connection's token is set, each of its lanes gets both its tasks to their end by at most 38 steps of
   * its own: wherever they are, also inside provide, and whatever the pool and all other lanes do not do.
   */
  lemma CancelledLaneEnds(s: Pool, id: LaneId) returns (run: seq<Event>)
    requires Reachable(s) && id in s.lanes && id.conn in s.cancelled
    ensures Legal(s, run) && OwnRun(run, id) && |run| <= 38
    ensures id in Exec(s, run).lanes && Ended(Exec(s, run).lanes[id])
  {
    ReachableInv(s);
    var first := ReaderLeaves(s, id);
    var second := WriterLeaves(Exec(s, first), id);
    StepsLeftBounded(s.permit, s.lanes[id]);
    StepsLeftBounded(s.permit, Exec(s, first).lanes[id]);
    RunConcat(s, first, second);
    OwnRunConcat(first, second, id);
    run := first + second;
  }
}
