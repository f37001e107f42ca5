/** A run on which a retry takes the drains of a cluster over its cap: two requests for one node each under a cap of
  * one drain. The first drains, blocks and stops counting; the second starts; the first retries. */
module CapBroken {
  import opened Api
  import opened NodeMachine
  import opened Passes
  import opened PassFacts
  import opened Caps
  import opened Solo

  const SPEC := RequestSpec(ModeExecute, StrategySerial, 1, 1, 0, 0, true, ApprovalAuto, [], false, false, None)

  function Go(now: int, others: nat): Pass {
    At(SPEC, now, others, STAYS)
  }

  lemma TwoLoads(a: World, b: World)
    ensures Total([a, b]) == Load(a) + Load(b)
    ensures OthersLoad([a, b], 0) == Load(b) && OthersLoad([a, b], 1) == Load(a)
  {
    assert [a, b][..1] == [a];
    assert [a][..0] == [];
    assert Total([a]) == Load(a);
  }

  /** The clock of the one controller never falls, and is at most last. */
  ghost predicate Clocked(schedule: seq<(nat, Pass)>, last: int) {
    && (forall j, k | 0 <= j < k < |schedule| :: schedule[j].1.now <= schedule[k].1.now)
    && (forall k | 0 <= k < |schedule| :: schedule[k].1.now <= last)
  }

  /** The schedule so far: no retry yet, the clock at now, and the two requests as given. */
  ghost predicate SoFar(schedule: seq<(nat, Pass)>, now: int, a: World, b: World) {
    SysRun(2, schedule) == [a, b] && Capped(2, schedule, 1) && Clocked(schedule, now)
  }

  lemma ClockedMore(schedule: seq<(nat, Pass)>, last: int, x: (nat, Pass))
    requires Clocked(schedule, last) && last <= x.1.now
    ensures Clocked(schedule + [x], x.1.now)
  {
  }

  lemma {:induction false} RunMore(schedule: seq<(nat, Pass)>, i: nat, p: Pass, sys: seq<World>)
    requires i < 2 && SysRun(2, schedule) == sys && Capped(2, schedule, 1)
    requires p.policy == Some(POLICY) && !Retries(SeeingOthers(sys, i, p), sys[i].status)
    ensures SysRun(2, schedule + [(i, p)]) == SysNext(sys, i, p) && Capped(2, schedule + [(i, p)], 1)
  {
    var more := schedule + [(i, p)];
    assert more[..|schedule|] == schedule && more[|schedule|] == (i, p);
  }

  lemma Seen(a: World, b: World, i: nat, p: Pass)
    requires i < 2
    ensures SeeingOthers([a, b], i, p) == p.(others := Some(if i == 0 then Load(b) else Load(a)))
    ensures SysNext([a, b], i, p) == if i == 0 then [Next(a, p.(others := Some(Load(b)))), b] else [a, Next(b, p.(others := Some(Load(a))))]
  {
    TwoLoads(a, b);
  }

  /** One more pass of the schedule, over a request that is not blocked. */
  lemma Extend(schedule: seq<(nat, Pass)>, last: int, a: World, b: World, i: nat, now: int)
    requires i < 2 && SoFar(schedule, last, a, b) && last <= now
    requires [a, b][i].status.phase != PhaseBlocked
    ensures var more := schedule + [(i, Go(now, 0))];
            if i == 0 then SoFar(more, now, Next(a, Go(now, Load(b))), b) else SoFar(more, now, a, Next(b, Go(now, Load(a))))
  {
    Seen(a, b, i, Go(now, 0));
    RunMore(schedule, i, Go(now, 0), [a, b]);
    ClockedMore(schedule, last, (i, Go(now, 0)));
  }

  lemma Loads(s: Status, tr: seq<Event>, cordoned: set<string>, since: int)
    ensures Load(START) == 0
    ensures Stuck(s, since) ==> Load(World(s, tr, cordoned)) == 0
    ensures Working(s, NodeCordoning, since) ==> Load(World(s, tr, cordoned)) == 1
  {
    if |s.nodes| == 1 {
      CountOne(s.nodes, IN_FLIGHT);
    }
  }

  /** Three passes begin the first request. */
  lemma BeginFirst() returns (schedule: seq<(nat, Pass)>, a: World)
    ensures Working(a.status, NodePending, 0) && SoFar(schedule, 0, a, START)
  {
    var p := Go(0, 0);
    assert SysRun(2, []) == [START, START];
    Loads(START.status, [], {}, 0);
    Begins(SPEC, 0, 0, STAYS);
    var a1 := Next(START, p);
    var a2 := Next(a1, p);
    a := Next(a2, p);
    Extend([], 0, START, START, 0, 0);
    Extend([] + [(0, p)], 0, a1, START, 0, 0);
    Extend([] + [(0, p)] + [(0, p)], 0, a2, START, 0, 0);
    schedule := [] + [(0, p)] + [(0, p)] + [(0, p)];
  }

  /** Later three passes begin the second request while the first has nothing in flight. */
  lemma BeginSecond(schedule: seq<(nat, Pass)>, a: World) returns (more: seq<(nat, Pass)>, b: World)
    requires SoFar(schedule, 11, a, START) && Load(a) == 0
    ensures Working(b.status, NodePending, 11) && SoFar(more, 11, a, b)
  {
    var p := Go(11, 0);
    Begins(SPEC, 11, 0, STAYS);
    var b1 := Next(START, p);
    var b2 := Next(b1, p);
    b := Next(b2, p);
    var e := [(1, p)];
    Extend(schedule, 11, a, START, 1, 11);
    Extend(schedule + [(1, Go(11, 0))], 11, a, b1, 1, 11);
    Extend(schedule + e + [(1, Go(11, 0))], 11, a, b2, 1, 11);
    more := schedule + e + e + [(1, Go(11, 0))];
  }

  /** The first request cordons its node, drains it in vain, and is blocked. */
  lemma BlockFirst(schedule: seq<(nat, Pass)>, a: World) returns (more: seq<(nat, Pass)>, w: World)
    requires SoFar(schedule, 0, a, START) && Working(a.status, NodePending, 0)
    ensures Stuck(w.status, 0) && SoFar(more, 11, w, START)
  {
    Loads(START.status, [], {}, 0);
    NodeStarts(SPEC, 0, STAYS, a.status);
    var a1 := Next(a, Go(0, 0));
    NodeCordons(SPEC, 0, 0, 0, STAYS, a1.status);
    var a2 := Next(a1, Go(0, 0));
    NodeBlocks(SPEC, 0, 11, 0, a2.status);
    w := Next(a2, Go(11, 0));
    Extend(schedule, 0, a, START, 0, 0);
    more := schedule + [(0, Go(0, 0))];
    Extend(more, 0, a1, START, 0, 0);
    more := more + [(0, Go(0, 0))];
    Extend(more, 0, a2, START, 0, 11);
    more := more + [(0, Go(11, 0))];
  }

  lemma RetryOfStuck(w: World, others: nat)
    requires Stuck(w.status, 0)
    ensures Retries(Go(12, others), w.status) && Load(Next(w, Go(12, others))) == 1
  {
    var p := Go(12, others);
    CountOne(w.status.nodes, {NodeBlocked});
    RetryCounts(p, w.status);
    PassNodes(p, w.status);
  }

  /** A schedule without a retry after which the first request is blocked and the second has its node in flight. */
  lemma BlockedAndWorking() returns (schedule: seq<(nat, Pass)>, a: World, b: World)
    ensures SoFar(schedule, 11, a, b) && Stuck(a.status, 0) && Working(b.status, NodeCordoning, 11)
  {
    schedule, a := BeginFirst();
    schedule, a := BlockFirst(schedule, a);
    Loads(a.status, a.trace, a.cordoned, 0);
    schedule, b := BeginSecond(schedule, a);
    NodeStarts(SPEC, 11, STAYS, b.status);
    Extend(schedule, 11, a, b, 1, 11);
    schedule := schedule + [(1, Go(11, 0))];
    b := Next(b, Go(11, 0));
  }

  /** Under a cap of one drain, a schedule of one controller without a retry leaves one node in flight, and the retry that
    * comes next makes it two. */
  lemma RetryBreaksCap() returns (schedule: seq<(nat, Pass)>, p: Pass)
    ensures Clocked(schedule + [(0, p)], p.now)
    ensures Capped(2, schedule, 1) && Total(SysRun(2, schedule)) == 1
    ensures StoredRetry(SysRun(2, schedule), 0, p)
    ensures Total(SysNext(SysRun(2, schedule), 0, p)) == 2
  {
    var a, b: World;
    schedule, a, b := BlockedAndWorking();
    p := Go(12, 0);
    RetryNext(a, b);
  }

  lemma RetryNext(a: World, b: World)
    requires Stuck(a.status, 0) && Working(b.status, NodeCordoning, 11)
    ensures Total([a, b]) == 1 && StoredRetry([a, b], 0, Go(12, 0))
    ensures Total(SysNext([a, b], 0, Go(12, 0))) == 2
  {
    var w := Next(a, Go(12, 1));
    Loads(a.status, a.trace, a.cordoned, 0);
    Loads(b.status, b.trace, b.cordoned, 11);
    TwoLoads(a, b);
    RetryOfStuck(a, 1);
    TwoLoads(w, b);
    assert SeeingOthers([a, b], 0, Go(12, 0)) == Go(12, 1);
    assert [a, b][0 := w] == [w, b];
  }
}
