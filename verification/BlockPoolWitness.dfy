/** Runs that show the bounds of BlockPoolSafety and BlockPoolCounter are reached. */
module BlockPoolWitness {
  import opened Common
  import opened Bytes
  import opened MapSum
  import opened BlockPool
  import opened BlockPoolSafety

  const CHUNK: Bytes := [0]

  function Repeat(k: nat): seq<Bytes> {
    if k == 0 then [] else Repeat(k - 1) + [CHUNK]
  }

  function RepeatBytes(k: nat): Bytes {
    if k == 0 then [] else RepeatBytes(k - 1) + CHUNK
  }

  /** A lane whose reader has queued k one-byte chunks and whose writer has not run. */
  function Filled(k: nat): Lane {
    NewLane([]).(queue := Repeat(k), provideNotify := Notify(k > 0, Absent), source := RepeatBytes(k))
  }

  lemma {:induction false} RepeatLength(k: nat)
    ensures |Repeat(k)| == k
  {
    if k > 0 { RepeatLength(k - 1); }
  }

  lemma OneStep(s: Pool, e: Event)
    requires Enabled(s, e)
    ensures Legal(s, [e]) && Exec(s, [e]) == Apply(s, e)
  {
    assert [e][1..] == [];
  }

  lemma InitReachable(limit: nat)
    ensures Reachable(Init(limit))
  {
    assert Legal(Init(limit), []) && Exec(Init(limit), []) == Init(limit);
  }

  lemma ReachStep(s: Pool, e: Event)
    requires Reachable(s) && Enabled(s, e)
    ensures Reachable(Apply(s, e))
  {
    var run :| Legal(Init(s.limit), run) && Exec(Init(s.limit), run) == s;
    OneStep(s, e);
    RunConcat(Init(s.limit), run, [e]);
  }

  // ----- moving one lane of a pool -----

  function At(s: Pool, id: LaneId, l: Lane, taken: int): Pool {
    s.(taken := taken, lanes := s.lanes[id := l])
  }

  /** Actions that touch nothing shared but the counter. */
  predicate Local(a: Action) {
    a.ReadChunk? || a.Probe? || a.Approve? || a.Take? || a.Push? || a.Signal? || a.Look? || a.Pop?
  }

  lemma Move(s: Pool, id: LaneId, l: Lane, taken: int, a: Action)
    requires Reachable(At(s, id, l, taken)) && Local(a)
    requires Ready(l, a) && (a.Approve? ==> taken < s.limit)
    ensures Reachable(At(s, id, Step(l, a), taken + TakenDelta(a)))
  {
    var t := At(s, id, l, taken);
    ReachStep(t, Act(id, a, None));
    assert t.lanes[id := Step(l, a)] == s.lanes[id := Step(l, a)];
  }

  /** An admitted chunk is counted and queued. */
  lemma Enqueue(s: Pool, id: LaneId, l: Lane, taken: int)
    requires Reachable(At(s, id, l, taken)) && l.reader == Taking(CHUNK)
    ensures Reachable(At(s, id,
      l.(reader := Reading, queue := l.queue + [CHUNK], provideNotify := l.provideNotify.NotifyOne()), taken + 1))
  {
    Move(s, id, l, taken, Take);
    Move(s, id, l.(reader := Pushing(CHUNK)), taken + 1, Push);
    Move(s, id, l.(reader := Signalling, queue := l.queue + [CHUNK]), taken + 1, Signal);
  }

  /** A chunk is read and admitted: by the empty-queue rule when k is 0, otherwise while credit is free. */
  lemma FillOne(s: Pool, id: LaneId, k: nat, taken: int)
    requires Reachable(At(s, id, Filled(k), taken)) && (k == 0 || taken < s.limit)
    ensures Reachable(At(s, id, Filled(k + 1), taken + 1))
  {
    RepeatLength(k);
    var l := Filled(k).(source := RepeatBytes(k + 1));
    Move(s, id, Filled(k), taken, ReadChunk(CHUNK));
    Move(s, id, l.(reader := Probing(CHUNK, true)), taken, Probe);
    if k > 0 {
      Move(s, id, l.(reader := Loading(CHUNK)), taken, Approve);
    }
    Enqueue(s, id, l.(reader := Taking(CHUNK)), taken);
  }

  /** The chunk of a lane has been popped and not released, and the next one queued: two credits. */
  function Doubled(): Lane {
    Filled(1).(writer := Releasing(CHUNK), source := RepeatBytes(2))
  }

  lemma FillTwice(s: Pool, id: LaneId, taken: int)
    requires Reachable(At(s, id, Filled(1), taken))
    ensures Reachable(At(s, id, Doubled(), taken + 1))
  {
    var l := Filled(1);
    assert l.queue == [CHUNK] && [CHUNK][1..] == [];
    Move(s, id, l, taken, Look);
    Move(s, id, l.(writer := Popping), taken, Pop);
    var m := l.(writer := Releasing(CHUNK), queue := []);
    Move(s, id, m, taken, ReadChunk(CHUNK));
    var n := m.(source := RepeatBytes(2));
    Move(s, id, n.(reader := Probing(CHUNK, true)), taken, Probe);
    Enqueue(s, id, n.(reader := Taking(CHUNK)), taken);
    assert n.queue + [CHUNK] == [CHUNK];
  }

  // ----- any number of lanes, two to a connection -----

  /** Lanes in the order they are opened: both of connection 0, then both of connection 1, and so on. */
  function LaneAt(k: nat): LaneId {
    LaneId(k / 2, k % 2 == 0)
  }

  ghost predicate FirstLanes(s: Pool, n: nat) {
    && s.lanes.Keys == s.spawned && |s.lanes| == n
    && forall k: nat {:trigger LaneAt(k)} :: LaneAt(k) in s.spawned <==> k < n
  }

  function Opened(s: Pool, id: LaneId): Pool {
    s.(spawned := s.spawned + {id})
  }

  lemma LaneAtInjective(j: nat, k: nat)
    requires LaneAt(j) == LaneAt(k)
    ensures j == k
  {
    assert j == 2 * (j / 2) + j % 2 && k == 2 * (k / 2) + k % 2;
  }

  /** A pool with the next lane opened and one chunk in it. */
  function Grown(s: Pool, n: nat): Pool {
    At(Opened(s, LaneAt(n)), LaneAt(n), Filled(1), s.taken + 1)
  }

  lemma GrownLanes(s: Pool, n: nat)
    requires FirstLanes(s, n)
    ensures LaneAt(n) !in s.lanes && FirstLanes(Grown(s, n), n + 1)
  {
    assert LaneAt(n) !in s.spawned;
    forall k: nat ensures LaneAt(k) in Grown(s, n).spawned <==> k < n + 1 {
      if LaneAt(k) == LaneAt(n) { LaneAtInjective(k, n); }
    }
  }

  lemma NextLaneOpens(s: Pool, n: nat)
    requires FirstLanes(s, n)
    ensures Enabled(s, Spawn(LaneAt(n), []))
  {
    if n % 2 == 0 {
      assert LaneAt(n + 1) == LaneId(n / 2, false);
    } else {
      assert LaneAt(n - 1) == LaneId(n / 2, true);
    }
  }

  /** The next lane is opened and admits one chunk, however full the pool is. */
  lemma OpenAndFill(s: Pool, n: nat)
    requires Reachable(s) && FirstLanes(s, n)
    ensures Reachable(Grown(s, n))
  {
    var id := LaneAt(n);
    NextLaneOpens(s, n);
    ReachStep(s, Spawn(id, []));
    assert Apply(s, Spawn(id, [])) == At(Opened(s, id), id, Filled(0), s.taken);
    FillOne(Opened(s, id), id, 0, s.taken);
  }

  /** One lane with k blocks, on an otherwise unused pool. */
  function FirstFilled(limit: nat, k: nat): Pool {
    Pool(limit, k, false, {}, {}, {}, {LaneAt(0)}, map[LaneAt(0) := Filled(k)])
  }

  lemma FirstFilledLanes(limit: nat, k: nat)
    ensures FirstLanes(FirstFilled(limit, k), 1)
  {
    forall j: nat ensures LaneAt(j) in FirstFilled(limit, k).spawned <==> j < 1 {
      if LaneAt(j) == LaneAt(0) { LaneAtInjective(j, 0); }
    }
  }

  /** The first lane alone fills the pool up to its limit. */
  lemma {:induction false} FillFirst(limit: nat, k: nat)
    requires 1 <= k && (k == 1 || k <= limit)
    ensures Reachable(FirstFilled(limit, k))
  {
    if k == 1 {
      InitReachable(limit);
      OpenAndFill(Init(limit), 0);
      assert Grown(Init(limit), 0) == FirstFilled(limit, 1);
    } else {
      FillFirst(limit, k - 1);
      var s := FirstFilled(limit, k - 1);
      assert At(s, LaneAt(0), Filled(k - 1), k - 1) == s;
      FillOne(s, LaneAt(0), k - 1, k - 1);
      assert At(s, LaneAt(0), Filled(k), k) == FirstFilled(limit, k);
    }
  }

  lemma BothLanesOpen(s: Pool, n: nat, id: LaneId)
    requires FirstLanes(s, n) && n % 2 == 0 && id in s.lanes
    ensures LaneId(id.conn, !id.outbound) in s.lanes
  {
    var k := 2 * id.conn + (if id.outbound then 0 else 1);
    assert LaneAt(k) == id;
    assert LaneAt(if id.outbound then k + 1 else k - 1) == LaneId(id.conn, !id.outbound);
  }

  lemma {:induction false} QueuedRun(limit: nat, n: nat) returns (s: Pool)
    requires 1 <= limit && 1 <= n
    ensures s.limit == limit && Reachable(s) && FirstLanes(s, n)
    ensures Sum(s.lanes, Queued) == limit - 1 + n && s.taken == limit - 1 + n
  {
    if n == 1 {
      FillFirst(limit, limit);
      FirstFilledLanes(limit, limit);
      s := FirstFilled(limit, limit);
      RepeatLength(limit);
      SumInsert(map[], LaneAt(0), Filled(limit), Queued);
      assert map[][LaneAt(0) := Filled(limit)] == s.lanes;
    } else {
      var t := QueuedRun(limit, n - 1);
      OpenAndFill(t, n - 1);
      GrownLanes(t, n - 1);
      s := Grown(t, n - 1);
      SumInsert(t.lanes, LaneAt(n - 1), Filled(1), Queued);
      RepeatLength(1);
    }
  }

  /**
   * The bound of QueuedBlocksBound cannot be improved: some run reaches it, with both lanes of every
   * connection open when their number is even.
   */
  lemma QueuedBlocksBoundReached(limit: nat, n: nat) returns (s: Pool)
    requires 1 <= limit && 1 <= n
    ensures s.limit == limit && Reachable(s) && |s.lanes| == n
    ensures Sum(s.lanes, Queued) == limit - 1 + n && s.taken == limit - 1 + n
    ensures n % 2 == 0 ==> forall id <- s.lanes :: LaneId(id.conn, !id.outbound) in s.lanes
  {
    s := QueuedRun(limit, n);
    if n % 2 == 0 {
      forall id <- s.lanes ensures LaneId(id.conn, !id.outbound) in s.lanes {
        BothLanesOpen(s, n, id);
      }
    }
  }
}
