/** The exact maximum of the pool's counter. */
module BlockPoolCounter {
  import opened Common
  import opened Bytes
  import opened MapSum
  import opened BlockPool
  import opened BlockPoolSafety
  import opened BlockPoolWitness

  /** Blocks beyond two that a lane has counted, or been admitted to count. */
  function Surplus(l: Lane): int {
    var held := Credit(l) + (if l.reader.Taking? then 1 else 0);
    if held <= 2 then 0 else held - 2
  }

  function Spare(limit: nat): nat {
    if limit <= 2 then 0 else limit - 2
  }

  lemma SurplusShrinks(l: Lane, a: Action)
    requires LaneInv(l) && Ready(l, a) && !a.Approve?
    ensures Surplus(Step(l, a)) <= Surplus(l)
  {
  }

  lemma SurplusOfCredit(l: Lane)
    requires LaneInv(l)
    ensures 0 <= Surplus(l) <= (if Credit(l) == 0 then 0 else Credit(l) - 1)
    ensures 0 <= Credit(l) <= Surplus(l) + 2
  {
  }

  /** With any credit at all in use, the surplus is less than the credit. */
  lemma SurplusBelowCredit(lanes: map<LaneId, Lane>)
    requires forall id <- lanes :: LaneInv(lanes[id])
    ensures Sum(lanes, Surplus) <= if Sum(lanes, Credit) <= 0 then 0 else Sum(lanes, Credit) - 1
  {
    forall id <- lanes ensures 0 <= Surplus(lanes[id]) <= (if Credit(lanes[id]) == 0 then 0 else Credit(lanes[id]) - 1) && 0 <= Credit(lanes[id]) {
      SurplusOfCredit(lanes[id]);
    }
    if k :| k in lanes && Credit(lanes[k]) > 0 {
      SumRemove(lanes, k, Surplus);
      SumRemove(lanes, k, Credit);
      SumMonotone(lanes - {k}, Surplus, Credit);
      SumAtLeast(lanes, k, Credit);
    } else {
      SumZero(lanes, Surplus);
    }
  }

  ghost predicate Capped(s: Pool) {
    Sum(s.lanes, Surplus) <= Spare(s.limit)
  }

  lemma ActKeepsCapped(s: Pool, e: Event)
    requires Inv(s) && Capped(s) && Enabled(s, e) && e.Act?
    ensures Capped(Apply(s, e))
  {
    var l := s.lanes[e.id];
    if e.action.Approve? {
      // The load saw a counter below the limit.
      InvKept(s, e);
      SurplusBelowCredit(Apply(s, e).lanes);
    } else {
      assert LaneInv(l);
      SurplusShrinks(l, e.action);
      SumUpdate(s.lanes, e.id, Step(l, e.action), Surplus);
    }
  }

  lemma CappedKept(s: Pool, e: Event)
    requires Inv(s) && Capped(s) && Enabled(s, e)
    ensures Capped(Apply(s, e))
  {
    match e {
      case Spawn(id, prefix) => SumInsert(s.lanes, id, NewLane(prefix), Surplus);
      case Remove(id) =>
        SumRemove(s.lanes, id, Surplus);
      case Act(_, _, _) => ActKeepsCapped(s, e);
    }
  }

  lemma {:induction false} RunKeepsCapped(s: Pool, run: seq<Event>)
    requires Inv(s) && Capped(s) && Legal(s, run)
    ensures Capped(Exec(s, run))
    decreases |run|
  {
    if run != [] {
      InvKept(s, run[0]);
      CappedKept(s, run[0]);
      RunKeepsCapped(Apply(s, run[0]), run[1..]);
    }
  }

  /** In every interleaving the counter is at most limit - 2, or 0 for a smaller limit, plus two per lane. */
  lemma CounterBound(s: Pool)
    requires Reachable(s)
    ensures 0 <= s.taken <= Spare(s.limit) + 2 * |s.lanes|
  {
    ReachableInv(s);
    QueuedBlocksBound(s);
    var run :| Legal(Init(s.limit), run) && Exec(Init(s.limit), run) == s;
    InitInv(s.limit);
    RunKeepsCapped(Init(s.limit), run);
    forall id <- s.lanes ensures Credit(s.lanes[id]) <= Surplus(s.lanes[id]) + 2 {
      SurplusOfCredit(s.lanes[id]);
    }
    SumShifted(s.lanes, Credit, Surplus, 2);
  }

  lemma {:induction false} CounterRun(limit: nat, n: nat) returns (s: Pool)
    requires 1 <= n
    ensures s.limit == limit && Reachable(s) && FirstLanes(s, n)
    ensures s.taken == Spare(limit) + 2 * n
  {
    if n == 1 && limit >= 2 {
      FillFirst(limit, limit);
      FirstFilledLanes(limit, limit);
      s := FirstFilled(limit, limit);
    } else {
      var t := Init(limit);
      if n == 1 {
        InitReachable(limit);
      } else {
        t := CounterRun(limit, n - 1);
      }
      var id := LaneAt(n - 1);
      OpenAndFill(t, n - 1);
      GrownLanes(t, n - 1);
      FillTwice(Opened(t, id), id, t.taken + 1);
      s := At(Opened(t, id), id, Doubled(), t.taken + 2);
    }
  }

  /**
   * That bound is reached for every limit and every number of lanes, with both lanes of every connection
   * open when it is even: CounterBound gives the exact maximum.
   */
  lemma CounterBoundReached(limit: nat, n: nat) returns (s: Pool)
    requires 1 <= n
    ensures s.limit == limit && Reachable(s) && |s.lanes| == n
    ensures s.taken == Spare(limit) + 2 * n
    ensures n % 2 == 0 ==> forall id <- s.lanes :: LaneId(id.conn, !id.outbound) in s.lanes
  {
    s := CounterRun(limit, n);
    if n % 2 == 0 {
      forall id <- s.lanes ensures LaneId(id.conn, !id.outbound) in s.lanes {
        BothLanesOpen(s, n, id);
      }
    }
  }
}
