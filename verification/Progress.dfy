/** Executing requests make progress and stop. */
module Progress {
  import opened Api
  import opened NodeMachine
  import opened Passes
  import opened Invariant
  import opened PassFacts
  import opened Caps

  /** How many phases a node still has ahead of it at most. */
  function Rank(p: NodePhase): nat {
    match p
    case NodePending => 6
    case NodeCordoning => 5
    case NodeDraining => 4
    case NodePostCheck => 3
    case NodeUncordoning => 2
    case NodeReplacing => 2
    case NodeAwaitingReplacement => 1
    case _ => 0
  }

  function RankSum(ns: seq<NodeRec>): nat {
    if ns == [] then 0 else RankSum(ns[..|ns| - 1]) + Rank(ns[|ns| - 1].phase)
  }

  /** A step never goes back: it keeps the phase or lowers the rank. */
  lemma StepLowersRank(c: StepContext, a: NodeAnswer, r: NodeRec, fl: int)
    ensures Step(c, a, r, fl).rec.phase == r.phase || Rank(Step(c, a, r, fl).rec.phase) < Rank(r.phase)
  {
  }

  /** Pointwise no greater: equal sums exactly when no phase changed. */
  lemma {:induction false} RankSums(a: seq<NodeRec>, b: seq<NodeRec>)
    requires |a| == |b|
    requires forall i | 0 <= i < |a| :: b[i].phase == a[i].phase || Rank(b[i].phase) < Rank(a[i].phase)
    ensures RankSum(b) <= RankSum(a)
    ensures RankSum(b) == RankSum(a) <==> forall i | 0 <= i < |a| :: b[i].phase == a[i].phase
  {
    if a != [] {
      RankSums(a[..|a| - 1], b[..|b| - 1]);
    }
  }

  ghost predicate SamePhases(a: seq<NodeRec>, b: seq<NodeRec>) {
    |a| == |b| && forall i | 0 <= i < |a| :: a[i].phase == b[i].phase
  }

  /** A pass over records that is not a retry never raises the rank sum, and lowers it exactly when some node changes phase. */
  lemma PassLowersRank(p: Pass, s: Status)
    requires StatusOk(s) && s.nodes != [] && !Retries(p, s)
    ensures |NodesAfter(p, s)| == |s.nodes|
    ensures RankSum(NodesAfter(p, s)) <= RankSum(s.nodes)
    ensures RankSum(NodesAfter(p, s)) == RankSum(s.nodes) <==> SamePhases(NodesAfter(p, s), s.nodes)
  {
    var ns := NodesAfter(p, s);
    if RunsBatch(p, s) {
      var c, b := ContextOf(p, PolicyOf(p)), CurrentBatch(s.nodes);
      SteppedOnce(c, p.answers, b, s.nodes, CountIn(s.nodes, IN_FLIGHT), |s.nodes|);
      forall i | 0 <= i < |s.nodes|
        ensures ns[i].phase == s.nodes[i].phase || Rank(ns[i].phase) < Rank(s.nodes[i].phase)
      {
        SteppedLowersRank(c, p.answers, b, s.nodes[i], ns[i], i);
      }
      RankSums(s.nodes, ns);
    }
  }

  lemma SteppedLowersRank(c: StepContext, answers: seq<NodeAnswer>, b: int, r: NodeRec, r': NodeRec, i: nat)
    requires Stepped(c, answers, b, r, r', i)
    ensures r'.phase == r.phase || Rank(r'.phase) < Rank(r.phase)
  {
    if r' != r {
      var fl :| r' == Step(c, AnswerAt(answers, i), r, fl).rec;
      StepLowersRank(c, AnswerAt(answers, i), r, fl);
    }
  }

  // ----- how often nodes can change phase -----

  /** No pass of the continuation is a retry. */
  predicate RetryFreeFrom(w: World, ps: seq<Pass>) {
    ps == [] || (RetryFreeFrom(w, ps[..|ps| - 1]) && !Retries(ps[|ps| - 1], RunFrom(w, ps[..|ps| - 1]).status))
  }

  /** How many passes stored a change of some node's phase. */
  function Changes(w: World, ps: seq<Pass>): nat {
    if ps == [] then 0
    else
      var n := |ps| - 1;
      var before, after := RunFrom(w, ps[..n]).status.nodes, RunFrom(w, ps).status.nodes;
      Changes(w, ps[..n]) + (if RankSum(after) == RankSum(before) then 0 else 1)
  }

  lemma {:induction false} ChangesLowerRank(w: World, ps: seq<Pass>)
    requires StatusOk(w.status) && w.status.nodes != [] && RetryFreeFrom(w, ps)
    ensures RunFrom(w, ps).status.nodes != [] && StatusOk(RunFrom(w, ps).status)
    ensures Changes(w, ps) + RankSum(RunFrom(w, ps).status.nodes) <= RankSum(w.status.nodes)
  {
    if ps != [] {
      var n := |ps| - 1;
      var s := RunFrom(w, ps[..n]).status;
      ChangesLowerRank(w, ps[..n]);
      PassKeepsStatus(ps[n], s);
      PassNodes(ps[n], s);
      PassLowersRank(ps[n], s);
    }
  }

  lemma {:induction false} RankSumBound(ns: seq<NodeRec>)
    ensures RankSum(ns) <= 6 * |ns|
  {
    if ns != [] {
      RankSumBound(ns[..|ns| - 1]);
    }
  }

  /** Between retries the stored node phases change at most six times per node. */
  lemma {:induction false} ChangesAreBounded(w: World, ps: seq<Pass>)
    requires StatusOk(w.status) && w.status.nodes != [] && RetryFreeFrom(w, ps)
    ensures Changes(w, ps) <= 6 * |w.status.nodes|
  {
    ChangesLowerRank(w, ps);
    RankSumBound(w.status.nodes);
  }

  // ----- no stall -----

  /** The answers for a node report no error. */
  predicate Answering(a: NodeAnswer) {
    && !a.lookup.LookupError? && a.cordonOk && a.evict.Some? && a.uncordonOk && a.ready.Some?
    && !a.replace.ReplaceError? && a.gone.Some?
  }

  /** If the node waits for its pods or its replacement, the answers end the wait. */
  predicate Stirs(c: StepContext, a: NodeAnswer, r: NodeRec) {
    r.phase in {NodeDraining, NodeAwaitingReplacement} ==> Step(c, a, r, 0).rec.phase != r.phase
  }

  /** A node that waits for nothing outside moves when it is visited. */
  lemma StepMoves(c: StepContext, a: NodeAnswer, r: NodeRec, fl: int)
    requires Answering(a) && !IsNodeTerminal(r.phase) && Stirs(c, a, r)
    requires r.phase == NodePostCheck ==> !c.held
    requires r.phase == NodePending ==> fl < c.concurrency && c.windowOpen
    ensures Step(c, a, r, fl).rec.phase != r.phase
  {
    InFlightOrNot(r.phase);
  }

  lemma {:induction false} LoopAnswers(c: StepContext, answers: seq<NodeAnswer>, b: int, ns: seq<NodeRec>, fl: int, k: nat)
    requires k <= |ns| && forall i | 0 <= i < |ns| :: Answering(AnswerAt(answers, i))
    ensures !StepTo(c, answers, b, ns, fl, k).err
  {
    if k > 0 {
      LoopAnswers(c, answers, b, ns, fl, k - 1);
      StepAnswers(c, AnswerAt(answers, k - 1), ns[k - 1], StepTo(c, answers, b, ns, fl, k - 1).inFlight);
    }
  }

  lemma StepAnswers(c: StepContext, a: NodeAnswer, r: NodeRec, fl: int)
    requires Answering(a)
    ensures !Step(c, a, r, fl).err
  {
  }

  /** In the current batch nothing is in flight, or something is that moves when visited. */
  lemma SomeNodeMoves(c: StepContext, answers: seq<NodeAnswer>, ns: seq<NodeRec>) returns (i: nat)
    requires NodesOk(ns) && CurrentBatch(ns) >= 0
    requires forall i | 0 <= i < |ns| :: Answering(AnswerAt(answers, i))
    requires forall i | 0 <= i < |ns| && ns[i].batch == CurrentBatch(ns) :: Stirs(c, AnswerAt(answers, i), ns[i])
    requires c.windowOpen && c.concurrency >= 1
    requires forall i | 0 <= i < |ns| && ns[i].phase == NodePostCheck :: !c.held
    ensures i < |ns|
    ensures StepTo(c, answers, CurrentBatch(ns), ns, CountIn(ns, IN_FLIGHT), |ns|).nodes[i].phase != ns[i].phase
  {
    var b, fl := CurrentBatch(ns), CountIn(ns, IN_FLIGHT);
    CurrentBatchIsLeast(ns);
    if j :| 0 <= j < |ns| && ns[j].batch == b && ns[j].phase in IN_FLIGHT {
      i := j;
      InFlightOrNot(ns[i].phase);
      MovesWhenVisited(c, answers, b, ns, fl, i);
    } else {
      i :| 0 <= i < |ns| && !IsNodeTerminal(ns[i].phase) && ns[i].batch == b;
      InFlightOrNot(ns[i].phase);
      NothingElseInFlight(ns, i);
      i := FirstPending(ns, b, i);
      UntouchedBefore(c, answers, b, ns, fl, i);
      MovesWhenVisited(c, answers, b, ns, fl, i);
    }
  }

  lemma {:induction false} MovesWhenVisited(c: StepContext, answers: seq<NodeAnswer>, b: int, ns: seq<NodeRec>, fl: int, i: nat)
    requires i < |ns| && ns[i].batch == b && !IsNodeTerminal(ns[i].phase) && Stirs(c, AnswerAt(answers, i), ns[i])
    requires forall j | 0 <= j < |ns| :: Answering(AnswerAt(answers, j))
    requires ns[i].phase == NodePostCheck ==> !c.held
    requires ns[i].phase == NodePending ==> StepTo(c, answers, b, ns, fl, i).inFlight < c.concurrency && c.windowOpen
    ensures StepTo(c, answers, b, ns, fl, |ns|).nodes[i].phase != ns[i].phase
  {
    VisitedOnce(c, answers, b, ns, fl, i, |ns|);
    LoopAnswers(c, answers, b, ns, fl, i);
    StepMoves(c, AnswerAt(answers, i), ns[i], StepTo(c, answers, b, ns, fl, i).inFlight);
  }

  /** With a pending node in the current batch and none of it in flight, nothing at all is in flight. */
  lemma {:induction false} NothingElseInFlight(ns: seq<NodeRec>, i: nat)
    requires NodesOk(ns) && i < |ns| && ns[i].phase == NodePending && ns[i].batch == CurrentBatch(ns)
    requires forall j | 0 <= j < |ns| && ns[j].batch == CurrentBatch(ns) :: ns[j].phase !in IN_FLIGHT
    ensures CountIn(ns, IN_FLIGHT) == 0
  {
    CurrentBatchIsLeast(ns);
    CountBounds(ns, IN_FLIGHT);
    forall j | 0 <= j < |ns| ensures ns[j].phase !in IN_FLIGHT {
      InFlightOrNot(ns[j].phase);
      if ns[j].batch > ns[i].batch {
        assert ns[j].phase == NodePending;
      }
    }
  }

  /** The first node of the batch that is not terminal. */
  lemma FirstPending(ns: seq<NodeRec>, b: int, i: nat) returns (first: nat)
    requires i < |ns| && ns[i].batch == b && !IsNodeTerminal(ns[i].phase)
    ensures first <= i && ns[first].batch == b && !IsNodeTerminal(ns[first].phase)
    ensures forall j | 0 <= j < first && ns[j].batch == b :: IsNodeTerminal(ns[j].phase)
    decreases i
  {
    if j :| 0 <= j < i && ns[j].batch == b && !IsNodeTerminal(ns[j].phase) {
      first := FirstPending(ns, b, j);
    } else {
      first := i;
    }
  }

  /** Until the first such node is visited, nothing has changed. */
  lemma {:induction false} UntouchedBefore(c: StepContext, answers: seq<NodeAnswer>, b: int, ns: seq<NodeRec>, fl: int, k: nat)
    requires k <= |ns| && forall j | 0 <= j < k && ns[j].batch == b :: IsNodeTerminal(ns[j].phase)
    ensures StepTo(c, answers, b, ns, fl, k) == LoopOut(ns, fl, [], false)
  {
    if k > 0 {
      UntouchedBefore(c, answers, b, ns, fl, k - 1);
    }
  }

  /** No stall: with the window open, a budget of at least one and no API error, a pass that visits the batch of an
    * executing request lowers the rank sum unless some node of the current batch still waits for its pods to go or its
    * replacement to come. */
  lemma NoStall(p: Pass, s: Status)
    requires StatusOk(s) && RunsBatch(p, s)
    requires p.windows == Some(true) && Budget(p, PolicyOf(p)) >= 1
    requires forall i | 0 <= i < |s.nodes| :: Answering(AnswerAt(p.answers, i))
    requires forall i | 0 <= i < |s.nodes| && s.nodes[i].batch == CurrentBatch(s.nodes) ::
               Stirs(ContextOf(p, PolicyOf(p)), AnswerAt(p.answers, i), s.nodes[i])
    ensures RankSum(NodesAfter(p, s)) < RankSum(s.nodes)
  {
    CountBounds(s.nodes, {NodePostCheck});
    var i := SomeNodeMoves(ContextOf(p, PolicyOf(p)), p.answers, s.nodes);
    PassLowersRank(p, s);
    assert NodesAfter(p, s)[i].phase != s.nodes[i].phase;
  }

  // ----- the global timeout -----

  /** The global timeout is at most limit in every pass. */
  ghost predicate Limited(ps: seq<Pass>, limit: int) {
    forall i | 0 <= i < |ps| :: Effective(ps[i].spec.globalTimeout, ps[i].config.globalTimeout) <= limit
  }

  /** Passes are at least d apart, the first not before start. */
  ghost predicate Spaced(ps: seq<Pass>, d: int, start: int) {
    && (forall i, j | 0 <= i < j < |ps| :: ps[i].now + d <= ps[j].now)
    && (forall i | 0 <= i < |ps| :: start <= ps[i].now)
  }

  /** The request is executing or blocked with records, and stays so through every pass of the sequence. */
  ghost predicate Cycling(w: World, ps: seq<Pass>) {
    && w.status.phase in {PhaseExecuting, PhaseBlocked} && w.status.nodes != []
    && (ps != [] ==> Cycling(w, ps[..|ps| - 1]) && RunFrom(w, ps).status.phase in {PhaseExecuting, PhaseBlocked})
  }

  /** A pass over a running request past its deadline does not leave it executing or blocked, if its write is stored. */
  lemma DeadlineEnds(p: Pass, s: Status)
    requires StatusOk(s) && s.phase in {PhaseExecuting, PhaseBlocked} && s.nodes != []
    requires GlobalTimedOut(p, s)
    ensures Reconcile(p, s).wrote && Reconcile(p, s).mem.phase in {PhaseFailed, PhaseCancelled, PhasePaused}
  {
  }

  lemma CyclingKeepsStart(p: Pass, s: Status)
    requires StatusOk(s) && s.phase in {PhaseExecuting, PhaseBlocked}
    ensures Reconcile(p, s).mem.startTime == s.startTime
  {
    if Proceeds(p, s) && s.phase == PhaseExecuting {
      ExecutingKeepsStart(p, PolicyOf(p), s);
    }
  }

  lemma ExecutingKeepsStart(p: Pass, pol: PolicySpec, s: Status)
    ensures Executing(p, pol, s).mem.startTime == s.startTime
  {
  }

  /** A pass that leaves the request in the cycle keeps its records and its start, and is not later than the deadline
    * if it stores its status. */
  lemma PassOnCycle(p: Pass, s: Status, limit: int)
    requires StatusOk(s) && s.phase in {PhaseExecuting, PhaseBlocked} && s.nodes != []
    requires Effective(p.spec.globalTimeout, p.config.globalTimeout) <= limit
    requires p.writeOk && Reconcile(p, s).wrote ==> Reconcile(p, s).mem.phase in {PhaseExecuting, PhaseBlocked}
    ensures StatusOk(Reconcile(p, s).mem) && Reconcile(p, s).mem.nodes != []
    ensures Reconcile(p, s).mem.startTime == s.startTime && s.startTime.Some?
    ensures p.writeOk ==> p.now <= s.startTime.value + limit
  {
    PassKeepsStatus(p, s);
    CyclingKeepsStart(p, s);
    PassNodes(p, s);
    PendingOnlyFades(p, s, 0);
    if GlobalTimedOut(p, s) {
      DeadlineEnds(p, s);
    }
  }

  /** What the records, the start and the clock are along the cycle. */
  ghost predicate OnCycle(s: Status, start: Option<int>) {
    StatusOk(s) && s.nodes != [] && s.startTime == start && start.Some?
  }

  lemma NextOnCycle(w: World, p: Pass, limit: int)
    requires StatusOk(w.status) && w.status.phase in {PhaseExecuting, PhaseBlocked} && w.status.nodes != []
    requires Effective(p.spec.globalTimeout, p.config.globalTimeout) <= limit
    requires Next(w, p).status.phase in {PhaseExecuting, PhaseBlocked}
    ensures OnCycle(Next(w, p).status, w.status.startTime)
    ensures p.writeOk ==> p.now <= w.status.startTime.value + limit
  {
    PassOnCycle(p, w.status, limit);
  }

  /** No pass that stores its status is later than last. */
  ghost predicate InTime(ps: seq<Pass>, last: int) {
    forall i | 0 <= i < |ps| && ps[i].writeOk :: ps[i].now <= last
  }

  lemma InTimeMore(ps: seq<Pass>, last: int)
    requires ps != [] && InTime(ps[..|ps| - 1], last)
    requires ps[|ps| - 1].writeOk ==> ps[|ps| - 1].now <= last
    ensures InTime(ps, last)
  {
    assert forall i | 0 <= i < |ps| - 1 :: ps[i] == ps[..|ps| - 1][i];
  }

  lemma {:induction false} CycleFacts(w: World, ps: seq<Pass>, limit: int)
    requires StatusOk(w.status) && Limited(ps, limit) && Cycling(w, ps)
    ensures OnCycle(RunFrom(w, ps).status, w.status.startTime)
    ensures InTime(ps, w.status.startTime.value + limit)
  {
    if ps != [] {
      var n := |ps| - 1;
      var u := RunFrom(w, ps[..n]);
      CycleFacts(w, ps[..n], limit);
      StillRunning(w, ps[..n]);
      StillRunning(w, ps);
      NextOnCycle(u, ps[n], limit);
      InTimeMore(ps, w.status.startTime.value + limit);
    }
  }

  lemma {:induction false} StillRunning(w: World, ps: seq<Pass>)
    requires Cycling(w, ps)
    ensures RunFrom(w, ps).status.phase in {PhaseExecuting, PhaseBlocked}
  {
  }

  /** How many passes store their status. */
  function Stored(ps: seq<Pass>): nat {
    if ps == [] then 0 else Stored(ps[..|ps| - 1]) + (if ps[|ps| - 1].writeOk then 1 else 0)
  }

  lemma {:induction false} StoredWithin(ps: seq<Pass>, d: nat, start: int, last: int)
    requires d > 0 && Spaced(ps, d, start) && start <= last
    requires InTime(ps, last)
    ensures (Stored(ps) - 1) * d <= last - start
  {
    if ps != [] {
      var n := |ps| - 1;
      assert Spaced(ps[..n], d, start);
      if !ps[n].writeOk {
        StoredWithin(ps[..n], d, start, last);
      } else if n == 0 {
        assert Stored(ps[..0]) == 0;
      } else {
        StoredWithin(ps[..n], d, start, ps[n].now - d);
        MoreTimes(Stored(ps[..n]) - 1, d);
      }
    }
  }

  lemma MoreTimes(k: int, d: int)
    ensures (k + 1) * d == k * d + d
  {
  }

  lemma TimesOrder(a: int, b: int, d: int)
    requires d > 0
    ensures a <= b ==> a * d <= b * d
  {
  }

  lemma AtMostQuotient(k: int, d: int, span: int)
    requires d > 0 && k * d <= span
    ensures k <= span / d
  {
    var q := span / d;
    MoreTimes(q, d);
    assert span < (q + 1) * d;
    TimesOrder(q + 1, k, d);
  }

  /** Passes at least d apart that store their status within a span number at most span / d + 1. */
  lemma {:induction false} StoredBound(ps: seq<Pass>, d: nat, start: int, span: nat)
    requires d > 0 && Spaced(ps, d, start)
    requires InTime(ps, start + span)
    ensures Stored(ps) <= span / d + 1
  {
    StoredWithin(ps, d, start, start + span);
    AtMostQuotient(Stored(ps) - 1, d, span);
  }

  /** The cycle of executing, blocking and retrying ends: however the nodes behave, with passes at least d apart at most
    * limit / d + 1 of them can store their status before the request leaves it. */
  lemma {:induction false} CycleEnds(w: World, ps: seq<Pass>, d: nat, limit: nat)
    requires StatusOk(w.status) && Limited(ps, limit) && Cycling(w, ps)
    requires w.status.startTime.Some? && Spaced(ps, d, w.status.startTime.value) && d > 0
    ensures Stored(ps) <= limit / d + 1
  {
    CycleFacts(w, ps, limit);
    StoredBound(ps, d, w.status.startTime.value, limit);
  }
}
