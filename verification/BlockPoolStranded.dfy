/** For which limits the pool's Notify can leave a reader waiting while credit is free. */
module BlockPoolStranded {
  import opened Common
  import opened Bytes
  import opened MapSum
  import opened BlockPool
  import opened BlockPoolSafety
  import opened BlockPoolWitness

  /** The lane has given, or has still to give, a credit back without having notified the pool. */
  predicate OwesNotification(l: Lane) {
    || l.writer.Releasing? || l.writer.NotifyingPool?
    || (l.phase.Dropping? && (l.phase.left > 0 || l.phase.pending))
  }

  /** No notification of the pool is stored, handed over or about to be issued. */
  predicate PoolSilent(s: Pool) {
    !s.permit && s.handed == {} && forall id <- s.lanes :: !OwesNotification(s.lanes[id])
  }

  /** A reader waits although credit is free, and nothing is under way that would wake it. */
  predicate Stranded(s: Pool, id: LaneId) {
    && s.taken < s.limit && PoolSilent(s)
    && id in s.lanes && Parked(s.lanes[id])
    && !s.lanes[id].consumeNotify.waiter.Handed? && !AboutToNotify(s.lanes[id].writer)
  }

  /** No reader is in the middle of an attempt, which might use the free credit up. */
  predicate Settled(s: Pool) {
    forall id <- s.lanes ::
      var r := s.lanes[id].reader; !r.Probing? && !r.Loading? && !r.Taking? && !r.Pushing?
  }

  // ----- small limits -----

  /** With a limit of at most 1 a reader that waits while credit is free is about to be woken by its own queue. */
  lemma TinyPoolWakes(s: Pool, id: LaneId)
    requires Reachable(s) && s.limit <= 1 && s.taken < s.limit && id in s.lanes && Parked(s.lanes[id])
    ensures s.lanes[id].consumeNotify.waiter.Handed? || AboutToNotify(s.lanes[id].writer)
  {
    ReachableInv(s);
    AllLaneWeights(s);
    SumAtLeast(s.lanes, id, Credit);
    NoLostWakeup(s, id);
  }

  /** The lane is about to notify the pool, or its reader, having been woken or refused, tries again. */
  predicate Alert(l: Lane) {
    || l.writer.NotifyingPool? || (l.phase.Dropping? && l.phase.pending)
    || (l.reader.Probing? && !l.reader.untried) || l.reader.Loading? || l.reader.Taking?
  }

  ghost predicate Alerted(s: Pool) {
    s.permit || s.handed != {} || exists j :: j in s.lanes && Alert(s.lanes[j])
  }

  /** The reader was refused, and its own queue will not wake it. */
  predicate Refused(l: Lane) {
    l.reader.Selecting? && l.queue != []
  }

  /** While credit is free a refused reader is not the only one to know of it. */
  ghost predicate Attentive(s: Pool) {
    s.taken < s.limit ==> forall id <- s.lanes :: Refused(s.lanes[id]) ==> Alerted(s)
  }

  lemma AlertStays(l: Lane, a: Action)
    requires LaneInv(l) && Ready(l, a) && Alert(l) && !a.NotifyPool? && !a.DropNotify? && !a.Refuse? && !a.Take?
    ensures Alert(Step(l, a))
  {
  }

  /** Actions after which the lane itself is alert. */
  predicate Rouses(l: Lane, a: Action) {
    || a.EnrollPoolReady? || a.WakePool? || a.WakeOwn? || (a.EnrollOwn? && l.consumeNotify.permit)
    || (a.Probe?) || a.Approve? || a.Release? || a.DropRelease?
  }

  lemma RousesAlert(l: Lane, a: Action)
    requires LaneInv(l) && Ready(l, a) && Rouses(l, a)
    ensures Alert(Step(l, a))
  {
  }

  lemma RefusedBefore(l: Lane, a: Action)
    requires LaneInv(l) && Ready(l, a) && Refused(Step(l, a)) && !a.Refuse?
    ensures Refused(l)
  {
  }

  lemma RefusedHasCredit(s: Pool, id: LaneId)
    requires Inv(s) && id in s.lanes && Refused(s.lanes[id])
    ensures 1 <= s.taken
  {
    AllLaneWeights(s);
    assert LaneInv(s.lanes[id]);
    SumAtLeast(s.lanes, id, Credit);
  }

  /** An action that neither notifies the pool nor rouses its lane leaves the pool's permit and handed set alone. */
  lemma TokensStay(s: Pool, e: Event)
    requires Enabled(s, e) && e.Act? && !Notifies(s, e.id, e.action) && !Rouses(s.lanes[e.id], e.action)
    ensures Apply(s, e).permit == s.permit && Apply(s, e).handed == s.handed
  {
  }

  lemma NotifiedIsAlerted(s: Pool, e: Event)
    requires Enabled(s, e) && e.Act? && Notifies(s, e.id, e.action)
    ensures Alerted(Apply(s, e))
  {
  }

  lemma ActKeepsAttentive(s: Pool, e: Event, id: LaneId)
    requires Inv(s) && Attentive(s) && s.limit <= 2 && Enabled(s, e) && e.Act?
    requires id in Apply(s, e).lanes && Refused(Apply(s, e).lanes[id]) && Apply(s, e).taken < s.limit
    ensures Alerted(Apply(s, e))
  {
    var t, l := Apply(s, e), s.lanes[e.id];
    assert LaneInv(l) && t.lanes[e.id] == Step(l, e.action);
    if Notifies(s, e.id, e.action) {
      NotifiedIsAlerted(s, e);
    } else if Rouses(l, e.action) {
      RousesAlert(l, e.action);
    } else if e.action.Refuse? {
      assert false;
    } else {
      if id == e.id {
        RefusedBefore(l, e.action);
      } else {
        assert t.lanes[id] == s.lanes[id];
      }
      RefusedHasCredit(s, id);
      assert !e.action.Take?;
      TokensStay(s, e);
      if j :| j in s.lanes && Alert(s.lanes[j]) {
        if j == e.id { AlertStays(l, e.action); } else { assert t.lanes[j] == s.lanes[j]; }
        assert j in t.lanes && Alert(t.lanes[j]);
      }
    }
  }

  lemma AlertIsNotDone(l: Lane)
    requires LaneInv(l) && Alert(l)
    ensures l.phase != Dropping(0, false)
  {
  }

  lemma OtherKeepsAttentive(s: Pool, e: Event, id: LaneId)
    requires Inv(s) && Attentive(s) && Enabled(s, e) && !e.Act?
    requires id in Apply(s, e).lanes && Refused(Apply(s, e).lanes[id]) && Apply(s, e).taken < s.limit
    ensures Alerted(Apply(s, e))
  {
    var t := Apply(s, e);
    assert id in s.lanes && t.lanes[id] == s.lanes[id];
    if j :| j in s.lanes && Alert(s.lanes[j]) {
      AlertIsNotDone(s.lanes[j]);
      assert j in t.lanes && t.lanes[j] == s.lanes[j];
    }
  }

  lemma AttentiveKept(s: Pool, e: Event)
    requires Inv(s) && Attentive(s) && s.limit <= 2 && Enabled(s, e)
    ensures Attentive(Apply(s, e))
  {
    var t := Apply(s, e);
    forall id <- t.lanes | t.taken < t.limit && Refused(t.lanes[id]) ensures Alerted(t) {
      if e.Act? {
        ActKeepsAttentive(s, e, id);
      } else {
        OtherKeepsAttentive(s, e, id);
      }
    }
  }

  lemma {:induction false} RunKeepsAttentive(s: Pool, run: seq<Event>)
    requires Inv(s) && Attentive(s) && s.limit <= 2 && Legal(s, run)
    ensures Attentive(Exec(s, run))
    decreases |run|
  {
    if run != [] {
      InvKept(s, run[0]);
      AttentiveKept(s, run[0]);
      RunKeepsAttentive(Apply(s, run[0]), run[1..]);
    }
  }

  /** With a limit of at most 2 a stranded reader is never left so: another reader is in an attempt. */
  lemma SmallPoolAttends(s: Pool, id: LaneId)
    requires Reachable(s) && s.limit <= 2 && Stranded(s, id)
    ensures !Settled(s)
  {
    ReachableInv(s);
    NoLostWakeup(s, id);
    var run :| Legal(Init(s.limit), run) && Exec(Init(s.limit), run) == s;
    InitInv(s.limit);
    RunKeepsAttentive(Init(s.limit), run);
    assert Refused(s.lanes[id]);
    var j :| j in s.lanes && Alert(s.lanes[j]);
    assert !OwesNotification(s.lanes[j]);
  }

  // ----- two lanes on a pool of any larger limit -----

  const A := LaneAt(0)
  const B := LaneAt(1)

  /** Two lanes on a pool whose Notify has no reader queued. */
  function Pair(limit: nat, taken: int, permit: bool, a: Lane, b: Lane): Pool {
    Pool(limit, taken, permit, {}, {}, {}, {A, B}, map[A := a, B := b])
  }

  predicate Plain(a: Action) {
    !a.EnrollPoolPending? && !a.CloseReader? && !a.CloseWriter? && !a.DropNotify?
  }

  function PermitAfter(permit: bool, a: Action): bool {
    if a.EnrollPoolReady? then false else permit || a.NotifyPool?
  }

  lemma MoveA(limit: nat, taken: int, permit: bool, a: Lane, b: Lane, x: Action)
    requires Reachable(Pair(limit, taken, permit, a, b)) && Plain(x)
    requires Ready(a, x) && SharedGuard(Pair(limit, taken, permit, a, b), A, x)
    ensures Reachable(Pair(limit, taken + TakenDelta(x), PermitAfter(permit, x), Step(a, x), b))
  {
    var s := Pair(limit, taken, permit, a, b);
    ReachStep(s, Act(A, x, None));
    assert s.lanes[A := Step(a, x)] == map[A := Step(a, x), B := b];
    assert WaitingAfter(s, A, x) == {} && HandedAfter(s, A, x) == {};
  }

  lemma MoveB(limit: nat, taken: int, permit: bool, a: Lane, b: Lane, x: Action)
    requires Reachable(Pair(limit, taken, permit, a, b)) && Plain(x)
    requires Ready(b, x) && SharedGuard(Pair(limit, taken, permit, a, b), B, x)
    ensures Reachable(Pair(limit, taken + TakenDelta(x), PermitAfter(permit, x), a, Step(b, x)))
  {
    var s := Pair(limit, taken, permit, a, b);
    ReachStep(s, Act(B, x, None));
    assert s.lanes[B := Step(b, x)] == map[A := a, B := Step(b, x)];
    assert WaitingAfter(s, B, x) == {} && HandedAfter(s, B, x) == {};
  }

  /** The pool full: one block in the second lane, the others in the first. */
  lemma FullPair(limit: nat)
    requires 2 <= limit
    ensures Reachable(Pair(limit, limit, false, Filled(limit - 1), Filled(1)))
  {
    FillFirst(limit, limit - 1);
    FirstFilledLanes(limit, limit - 1);
    var s := FirstFilled(limit, limit - 1);
    OpenAndFill(s, 1);
    assert Grown(s, 1).lanes == map[A := Filled(limit - 1), B := Filled(1)] && Grown(s, 1).spawned == {A, B};
    assert Grown(s, 1) == Pair(limit, limit, false, Filled(limit - 1), Filled(1));
  }

  /** A lane of k blocks whose reader was refused and has not begun to wait. */
  function Turned(k: nat): Lane {
    Filled(k).(reader := Selecting(CHUNK, false, false), source := RepeatBytes(k + 1))
  }

  lemma TurnA(limit: nat, k: nat, b: Lane)
    requires 1 <= k && Reachable(Pair(limit, limit, false, Filled(k), b))
    ensures Reachable(Pair(limit, limit, false, Turned(k), b))
  {
    RepeatLength(k);
    var l := Filled(k).(source := RepeatBytes(k + 1));
    MoveA(limit, limit, false, Filled(k), b, ReadChunk(CHUNK));
    MoveA(limit, limit, false, l.(reader := Probing(CHUNK, true)), b, Probe);
    MoveA(limit, limit, false, l.(reader := Loading(CHUNK)), b, Refuse);
  }

  lemma TurnB(limit: nat, a: Lane, k: nat)
    requires 1 <= k && Reachable(Pair(limit, limit, false, a, Filled(k)))
    ensures Reachable(Pair(limit, limit, false, a, Turned(k)))
  {
    RepeatLength(k);
    var l := Filled(k).(source := RepeatBytes(k + 1));
    MoveB(limit, limit, false, a, Filled(k), ReadChunk(CHUNK));
    MoveB(limit, limit, false, a, l.(reader := Probing(CHUNK, true)), Probe);
    MoveB(limit, limit, false, a, l.(reader := Loading(CHUNK)), Refuse);
  }

  lemma PopA(limit: nat, taken: int, permit: bool, a: Lane, b: Lane)
    requires Reachable(Pair(limit, taken, permit, a, b)) && a.writer.Idle? && a.queue != []
    ensures Reachable(Pair(limit, taken, permit, a.(writer := Releasing(a.queue[0]), queue := a.queue[1..]), b))
  {
    MoveA(limit, taken, permit, a, b, Look);
    MoveA(limit, taken, permit, a.(writer := Popping), b, Pop);
  }

  /** The writer's round that takes one block out and gives its credit back. */
  function Drained(l: Lane): Lane
    requires l.queue != []
  {
    l.(writer := Writing(l.queue[0]), queue := l.queue[1..], consumeNotify := l.consumeNotify.NotifyOne())
  }

  lemma DrainA(limit: nat, taken: int, permit: bool, a: Lane, b: Lane)
    requires Reachable(Pair(limit, taken, permit, a, b)) && a.writer.Idle? && a.queue != []
    ensures Reachable(Pair(limit, taken - 1, true, Drained(a), b))
  {
    PopA(limit, taken, permit, a, b);
    var m := a.(writer := Releasing(a.queue[0]), queue := a.queue[1..]);
    MoveA(limit, taken, permit, m, b, Release);
    MoveA(limit, taken - 1, permit, m.(writer := NotifyingPool(a.queue[0])), b, NotifyPool);
    MoveA(limit, taken - 1, true, m.(writer := NotifyingOwn(a.queue[0])), b, NotifyOwn);
  }

  /** Both readers are refused; then one credit comes back. */
  lemma OneDrained(limit: nat)
    requires 2 <= limit
    ensures Turned(limit - 1).queue != []
    ensures Reachable(Pair(limit, limit - 1, true, Drained(Turned(limit - 1)), Turned(1)))
  {
    RepeatLength(limit - 1);
    FullPair(limit);
    TurnA(limit, limit - 1, Filled(1));
    TurnB(limit, Turned(limit - 1), 1);
    DrainA(limit, limit, false, Turned(limit - 1), Turned(1));
  }

  /** The second reader, queued on both Notify objects. */
  function Waiting(): Lane {
    Turned(1).(reader := Selecting(CHUNK, true, true), consumeNotify := Notify(false, Enrolled))
  }

  function PairWaiting(limit: nat, taken: int, a: Lane): Pool {
    Pair(limit, taken, false, a, Waiting()).(waiting := {B})
  }

  lemma EnrollB(limit: nat, taken: int, a: Lane)
    requires Reachable(Pair(limit, taken, false, a, Waiting().(reader := Selecting(CHUNK, true, false))))
    ensures Reachable(PairWaiting(limit, taken, a))
  {
    var b := Waiting().(reader := Selecting(CHUNK, true, false));
    var t := Pair(limit, taken, false, a, b);
    ReachStep(t, Act(B, EnrollPoolPending, None));
    assert t.lanes[B := Waiting()] == map[A := a, B := Waiting()];
    assert {} + {B} == {B};
  }

  lemma ParkB(limit: nat, taken: int, a: Lane) returns (s: Pool)
    requires taken < limit && Reachable(Pair(limit, taken, false, a, Turned(1))) && !OwesNotification(a)
    ensures Reachable(s) && s.limit == limit && Stranded(s, B)
    ensures s == PairWaiting(limit, taken, a)
  {
    MoveB(limit, taken, false, a, Turned(1), EnrollOwn);
    EnrollB(limit, taken, a);
    s := PairWaiting(limit, taken, a);
  }

  /** The first reader uses the permit up before the second has queued; it is still in its attempt. */
  lemma StrandedDuringAttempt(limit: nat) returns (s: Pool)
    requires 2 <= limit
    ensures Reachable(s) && s.limit == limit && Stranded(s, B)
  {
    OneDrained(limit);
    var a := Drained(Turned(limit - 1));
    MoveA(limit, limit - 1, true, a, Turned(1), EnrollPoolReady);
    s := ParkB(limit, limit - 1, Step(a, EnrollPoolReady));
  }

  lemma EnqueueA(limit: nat, taken: int, a: Lane, b: Lane)
    requires Reachable(Pair(limit, taken, false, a, b)) && a.reader == Taking(CHUNK)
    ensures Reachable(Pair(limit, taken + 1, false,
      a.(reader := Reading, queue := a.queue + [CHUNK], provideNotify := a.provideNotify.NotifyOne()), b))
  {
    MoveA(limit, taken, false, a, b, Take);
    MoveA(limit, taken + 1, false, a.(reader := Pushing(CHUNK)), b, Push);
    MoveA(limit, taken + 1, false, a.(reader := Signalling, queue := a.queue + [CHUNK]), b, Signal);
  }

  /** The first reader's attempt, with a credit to spare. */
  lemma AttemptA(limit: nat, a: Lane)
    requires a.reader == Probing(CHUNK, false) && 3 <= limit && Reachable(Pair(limit, limit - 2, false, a, Turned(1)))
    ensures Reachable(Pair(limit, limit - 1, false,
      a.(reader := Reading, queue := a.queue + [CHUNK], provideNotify := a.provideNotify.NotifyOne()), Turned(1)))
  {
    var b := Turned(1);
    MoveA(limit, limit - 2, false, a, b, Probe);
    if a.queue != [] {
      MoveA(limit, limit - 2, false, a.(reader := Loading(CHUNK)), b, Approve);
    }
    EnqueueA(limit, limit - 2, a.(reader := Taking(CHUNK)), b);
  }

  /** Two credits come back before either reader has queued: both share one permit, which wakes one reader. */
  lemma StrandedAtRest(limit: nat) returns (s: Pool)
    requires 3 <= limit
    ensures Reachable(s) && s.limit == limit && Stranded(s, B) && Settled(s)
  {
    OneDrained(limit);
    RepeatLength(limit - 1);
    var b, a := Turned(1), Drained(Turned(limit - 1));
    MoveA(limit, limit - 1, true, a, b, WriteOk);
    var a1 := Step(a, WriteOk);
    DrainA(limit, limit - 1, true, a1, b);
    var a2 := Drained(a1);
    MoveA(limit, limit - 2, true, a2, b, EnrollPoolReady);
    var a3 := Step(a2, EnrollPoolReady);
    AttemptA(limit, a3);
    s := ParkB(limit, limit - 1,
      a3.(reader := Reading, queue := a3.queue + [CHUNK], provideNotify := a3.provideNotify.NotifyOne()));
  }

  // ----- the exact limits -----

  ghost predicate CanStrand(limit: nat) {
    exists s, id :: Reachable(s) && s.limit == limit && Stranded(s, id)
  }

  ghost predicate CanStrandAtRest(limit: nat) {
    exists s, id :: Reachable(s) && s.limit == limit && Stranded(s, id) && Settled(s)
  }

  /**
   * A reader can be left waiting while credit is free exactly from a limit of 2 on, and without even another
   * reader's attempt under way exactly from a limit of 3 on. In every other pool free credit is noticed.
   */
  lemma StrandedExactly(limit: nat)
    ensures CanStrand(limit) <==> 2 <= limit
    ensures CanStrandAtRest(limit) <==> 3 <= limit
  {
    if 2 <= limit {
      var s := StrandedDuringAttempt(limit);
    } else if s, id :| Reachable(s) && s.limit == limit && Stranded(s, id) {
      TinyPoolWakes(s, id);
      assert false;
    }
    if 3 <= limit {
      var s := StrandedAtRest(limit);
    } else if s, id :| Reachable(s) && s.limit == limit && Stranded(s, id) && Settled(s) {
      SmallPoolAttends(s, id);
      assert false;
    }
  }
}
