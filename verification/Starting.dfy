/** Which nodes a pass may start, and what a closed window does to the others. */
module Starting {
  import opened Api
  import opened NodeMachine
  import opened Passes
  import opened Invariant
  import opened PassFacts
  import opened Caps

  // ----- nodes start in order -----

  /** Within a batch nodes start in order: behind a pending node all are pending. */
  ghost predicate PendingLast(ns: seq<NodeRec>) {
    forall i, j | 0 <= i < j < |ns| && ns[i].batch == ns[j].batch && ns[i].phase == NodePending :: ns[j].phase == NodePending
  }

  /** Nothing can start any more in this visit. */
  predicate Shut(c: StepContext, o: LoopOut) {
    o.err || o.inFlight >= c.concurrency || !c.windowOpen
  }

  lemma {:induction false} NoMoreStarts(c: StepContext, answers: seq<NodeAnswer>, b: int, ns: seq<NodeRec>, fl: int, k: nat, m: nat)
    requires k <= m <= |ns| && Shut(c, StepTo(c, answers, b, ns, fl, k))
    requires forall j | k <= j < m && ns[j].batch == b :: ns[j].phase == NodePending
    ensures StepTo(c, answers, b, ns, fl, m).nodes == StepTo(c, answers, b, ns, fl, k).nodes
    ensures Shut(c, StepTo(c, answers, b, ns, fl, m))
    decreases m
  {
    if k < m {
      NoMoreStarts(c, answers, b, ns, fl, k, m - 1);
    }
  }

  /** A pending node that a visit leaves pending ends the starts of that visit. */
  lemma {:induction false} LeftPending(c: StepContext, answers: seq<NodeAnswer>, b: int, ns: seq<NodeRec>, fl: int, i: nat)
    requires i < |ns| && ns[i].batch == b && ns[i].phase == NodePending
    requires StepTo(c, answers, b, ns, fl, |ns|).nodes[i].phase == NodePending
    ensures Shut(c, StepTo(c, answers, b, ns, fl, i + 1))
  {
    VisitedOnce(c, answers, b, ns, fl, i, |ns|);
  }

  lemma {:induction false} VisitKeepsOrder(c: StepContext, answers: seq<NodeAnswer>, b: int, ns: seq<NodeRec>, fl: int, i: nat, j: nat)
    requires PendingLast(ns) && i < j < |ns| && ns[i].batch == ns[j].batch == b && ns[i].phase == NodePending
    requires StepTo(c, answers, b, ns, fl, |ns|).nodes[i].phase == NodePending
    ensures StepTo(c, answers, b, ns, fl, |ns|).nodes[j].phase == NodePending
  {
    LeftPending(c, answers, b, ns, fl, i);
    NoMoreStarts(c, answers, b, ns, fl, i + 1, |ns|);
  }

  lemma OrderKept(p: Pass, s: Status)
    requires StatusOk(s) && PendingLast(s.nodes)
    ensures PendingLast(NodesAfter(p, s))
  {
    if RunsBatch(p, s) {
      var pol := PolicyOf(p);
      var ns := NodesAfter(p, s);
      BatchKeepsNodes(p, pol, s);
      forall i, j | 0 <= i < j < |ns| && ns[i].batch == ns[j].batch && ns[i].phase == NodePending
        ensures ns[j].phase == NodePending
      {
        if ns[i].batch == CurrentBatch(s.nodes) {
          VisitKeepsOrder(ContextOf(p, pol), p.answers, CurrentBatch(s.nodes), s.nodes, CountIn(s.nodes, IN_FLIGHT), i, j);
        }
      }
    } else if Starts(p, s) && s.nodes == [] {
      PlanRecords(p, PolicyOf(p), p.target.value);
    }
  }

  lemma {:induction false} AlwaysInOrder(ps: seq<Pass>)
    ensures PendingLast(Run(ps).status.nodes)
  {
    if ps != [] {
      var n := |ps| - 1;
      var s := Run(ps[..n]).status;
      AlwaysInOrder(ps[..n]);
      StatusAlwaysOk(ps[..n]);
      PassNodes(ps[n], s);
      OrderKept(ps[n], s);
    }
  }

  // ----- a closed window -----

  /** The visit asks for the node at j in order to start it, and the lookup fails: that ends the visit. */
  predicate Refused(c: StepContext, answers: seq<NodeAnswer>, b: int, ns: seq<NodeRec>, fl: int, j: nat)
    requires j < |ns|
  {
    && ns[j].batch == b && ns[j].phase == NodePending && AnswerAt(answers, j).lookup.LookupError?
    && !Shut(c, StepTo(c, answers, b, ns, fl, j))
  }

  /** What a step does to a node in flight depends neither on the window nor on the others in flight. */
  lemma InFlightStep(c: StepContext, d: StepContext, a: NodeAnswer, r: NodeRec, fl: int, gl: int)
    requires r.phase in IN_FLIGHT && d == c.(windowOpen := false)
    ensures Step(c, a, r, fl).rec == Step(d, a, r, gl).rec && Step(c, a, r, fl).err == Step(d, a, r, gl).err
  {
  }

  /** As far as no start is refused, the visits with an open and with a closed window fail at the same node and leave
    * the nodes that were in flight the same. */
  ghost predicate Alike(ns: seq<NodeRec>, o: LoopOut, q: LoopOut, k: nat)
    requires k <= |ns| == |o.nodes| == |q.nodes|
  {
    o.err == q.err && forall j | 0 <= j < k && ns[j].phase in IN_FLIGHT :: o.nodes[j] == q.nodes[j]
  }

  /** None of the first k nodes is refused. */
  predicate NoneRefused(c: StepContext, answers: seq<NodeAnswer>, b: int, ns: seq<NodeRec>, fl: int, k: nat)
    requires k <= |ns|
  {
    k == 0 || (NoneRefused(c, answers, b, ns, fl, k - 1) && !Refused(c, answers, b, ns, fl, k - 1))
  }

  lemma {:induction false} NoneRefusedMeans(c: StepContext, answers: seq<NodeAnswer>, b: int, ns: seq<NodeRec>, fl: int, k: nat)
    requires k <= |ns|
    ensures NoneRefused(c, answers, b, ns, fl, k) <==> forall j | 0 <= j < k :: !Refused(c, answers, b, ns, fl, j)
  {
    if k > 0 {
      NoneRefusedMeans(c, answers, b, ns, fl, k - 1);
    }
  }

  lemma {:induction false} AlikeUntilRefused(c: StepContext, d: StepContext, answers: seq<NodeAnswer>, b: int, ns: seq<NodeRec>, fl: int, k: nat)
    requires k <= |ns| && d == c.(windowOpen := false) && NoneRefused(c, answers, b, ns, fl, k)
    ensures Alike(ns, StepTo(c, answers, b, ns, fl, k), StepTo(d, answers, b, ns, fl, k), k)
  {
    if k > 0 {
      AlikeUntilRefused(c, d, answers, b, ns, fl, k - 1);
      StayAlike(c, d, answers, b, ns, fl, k - 1);
    }
  }

  lemma StayAlike(c: StepContext, d: StepContext, answers: seq<NodeAnswer>, b: int, ns: seq<NodeRec>, fl: int, k: nat)
    requires k < |ns| && d == c.(windowOpen := false) && !Refused(c, answers, b, ns, fl, k)
    requires Alike(ns, StepTo(c, answers, b, ns, fl, k), StepTo(d, answers, b, ns, fl, k), k)
    ensures Alike(ns, StepTo(c, answers, b, ns, fl, k + 1), StepTo(d, answers, b, ns, fl, k + 1), k + 1)
  {
    var o, q := StepTo(c, answers, b, ns, fl, k), StepTo(d, answers, b, ns, fl, k);
    var a, r := AnswerAt(answers, k), ns[k];
    if !(o.err || r.batch != b || IsNodeTerminal(r.phase)) {
      InFlightOrNot(r.phase);
      if r.phase == NodePending {
        PendingStep(c, d, a, r, o.inFlight, q.inFlight);
      } else {
        InFlightStep(c, d, a, r, o.inFlight, q.inFlight);
      }
    }
  }

  lemma PendingStep(c: StepContext, d: StepContext, a: NodeAnswer, r: NodeRec, fl: int, gl: int)
    requires r.phase == NodePending && !d.windowOpen
    requires fl >= c.concurrency || !c.windowOpen || !a.lookup.LookupError?
    ensures !Step(c, a, r, fl).err && !Step(d, a, r, gl).err
  {
  }

  lemma {:induction false} RefusedStops(c: StepContext, answers: seq<NodeAnswer>, b: int, ns: seq<NodeRec>, fl: int, j: nat, i: nat)
    requires j < i < |ns| && Refused(c, answers, b, ns, fl, j)
    ensures StepTo(c, answers, b, ns, fl, |ns|).nodes[i] == ns[i]
  {
    StepToStops(c, answers, b, ns, fl, j + 1);
  }

  lemma {:induction false} ClosedVisitIff(c: StepContext, d: StepContext, answers: seq<NodeAnswer>, b: int, ns: seq<NodeRec>, fl: int, i: nat)
    requires i < |ns| && ns[i].phase in IN_FLIGHT && d == c.(windowOpen := false)
    ensures var open, closed := StepTo(c, answers, b, ns, fl, |ns|).nodes[i], StepTo(d, answers, b, ns, fl, |ns|).nodes[i];
            open == closed <==> (forall j | 0 <= j < i :: !Refused(c, answers, b, ns, fl, j)) || closed == ns[i]
  {
    if j :| 0 <= j < i && Refused(c, answers, b, ns, fl, j) {
      RefusedStops(c, answers, b, ns, fl, j, i);
    } else {
      NoneRefusedMeans(c, answers, b, ns, fl, i);
      assert !Refused(c, answers, b, ns, fl, i);
      AlikeUntilRefused(c, d, answers, b, ns, fl, i + 1);
      VisitedOnce(c, answers, b, ns, fl, i, |ns|);
      VisitedOnce(d, answers, b, ns, fl, i, |ns|);
    }
  }

  /** The pass asks for the pending node at j in order to start it, and the lookup fails. */
  predicate StartRefused(p: Pass, s: Status, j: nat)
    requires j < |s.nodes| && p.policy.Some?
  {
    Refused(ContextOf(p, PolicyOf(p)), p.answers, CurrentBatch(s.nodes), s.nodes, CountIn(s.nodes, IN_FLIGHT), j)
  }

  /** Closing the window leaves what a pass does to a node in flight as it is if and only if no lookup for a start ahead
    * of that node fails, or the node would not have changed anyway. */
  lemma ClosedWindowIff(p: Pass, q: Pass, s: Status, i: nat)
    requires RunsBatch(p, s) && p.windows == Some(true) && q == p.(windows := q.windows) && q.windows != Some(true)
    requires i < |s.nodes| && s.nodes[i].phase in IN_FLIGHT
    ensures |NodesAfter(p, s)| == |NodesAfter(q, s)| == |s.nodes|
    ensures NodesAfter(p, s)[i] == NodesAfter(q, s)[i]
            <==> (forall j | 0 <= j < i :: !StartRefused(p, s, j)) || NodesAfter(q, s)[i] == s.nodes[i]
  {
    var pol := PolicyOf(p);
    var c, b, fl := ContextOf(p, pol), CurrentBatch(s.nodes), CountIn(s.nodes, IN_FLIGHT);
    SameButWindow(p, q, pol, s);
    ClosedVisitIff(c, ContextOf(q, pol), p.answers, b, s.nodes, fl, i);
    assert forall j | 0 <= j < i :: StartRefused(p, s, j) <==> Refused(c, p.answers, b, s.nodes, fl, j);
  }

  lemma SameButWindow(p: Pass, q: Pass, pol: PolicySpec, s: Status)
    requires p.windows == Some(true) && q == p.(windows := q.windows) && q.windows != Some(true)
    ensures ContextOf(q, pol) == ContextOf(p, pol).(windowOpen := false)
    ensures RunsBatch(p, s) <==> RunsBatch(q, s)
  {
  }

  /** On every run a closed window changes nothing for a node already in flight: nodes start in order, so none is
    * started ahead of it. */
  lemma WindowOnlyGatesStarts(ps: seq<Pass>, p: Pass, q: Pass, i: nat)
    requires p.windows == Some(true) && q == p.(windows := q.windows) && q.windows != Some(true)
    requires i < |Run(ps).status.nodes| && Run(ps).status.nodes[i].phase in IN_FLIGHT
    ensures |NodesAfter(p, Run(ps).status)| == |NodesAfter(q, Run(ps).status)| > i
    ensures NodesAfter(p, Run(ps).status)[i] == NodesAfter(q, Run(ps).status)[i]
  {
    var s := Run(ps).status;
    AlwaysInOrder(ps);
    NoneStartedAhead(p, q, s, i);
  }

  lemma NoneStartedAhead(p: Pass, q: Pass, s: Status, i: nat)
    requires p.windows == Some(true) && q == p.(windows := q.windows) && q.windows != Some(true)
    requires PendingLast(s.nodes) && i < |s.nodes| && s.nodes[i].phase in IN_FLIGHT
    ensures |NodesAfter(p, s)| == |NodesAfter(q, s)| > i
    ensures NodesAfter(p, s)[i] == NodesAfter(q, s)[i]
  {
    if RunsBatch(p, s) {
      ClosedWindowIff(p, q, s, i);
      if s.nodes[i].batch != CurrentBatch(s.nodes) {
        NotVisited(q, s, i);
      }
    }
  }

  lemma NotVisited(p: Pass, s: Status, i: nat)
    requires RunsBatch(p, s) && i < |s.nodes| && s.nodes[i].batch != CurrentBatch(s.nodes)
    ensures NodesAfter(p, s)[i] == s.nodes[i]
  {
    SteppedOnce(ContextOf(p, PolicyOf(p)), p.answers, CurrentBatch(s.nodes), s.nodes, CountIn(s.nodes, IN_FLIGHT), |s.nodes|);
    assert Stepped(ContextOf(p, PolicyOf(p)), p.answers, CurrentBatch(s.nodes), s.nodes[i], NodesAfter(p, s)[i], i);
  }

  // ----- a status on which it does -----

  const FAILING := NO_ANSWER

  /** Nothing left on the node: it is drained when visited. */
  const DRAINS := NodeAnswer(LookupError, true, Some(EvictResult(0, 0, 0, NoReason)), true, None, ReplaceError, None)

  /** On a well-formed status with a pending node ahead of a draining one in its batch, which no run reaches, an open window
    * keeps the draining node waiting when the lookup of the pending one fails; a closed window does not. */
  lemma OpenWindowCanHoldUp() returns (p: Pass, q: Pass, s: Status)
    ensures StatusOk(s) && !PendingLast(s.nodes) && RunsBatch(p, s)
    ensures p.windows == Some(true) && q == p.(windows := Some(false))
    ensures |s.nodes| == 2 && s.nodes[1].phase == NodeDraining && NodesAfter(p, s)[1].phase == NodeDraining
    ensures |NodesAfter(q, s)| == 2 && NodesAfter(q, s)[1].phase == NodePostCheck
  {
    var spec := RequestSpec(ModeExecute, StrategyBatched, 2, 2, 0, 0, true, ApprovalAuto, [], false, false, None);
    p := Pass(spec, Some(PolicySpec(2, 0, 0, 1, ApprovalAuto)), Config(10, 100, 10), 0, None, false, false, false,
              Some(true), Some(0), [FAILING, DRAINS], true);
    q := p.(windows := Some(false));
    s := OutOfOrder();
    TwoRecords(s.nodes);
    HoldsUp(p, q, s);
  }

  /** Two nodes of one batch, the first pending, the second draining. */
  lemma OutOfOrder() returns (s: Status)
    ensures StatusOk(s) && s.phase == PhaseExecuting && s.startTime == Some(0)
    ensures |s.nodes| == 2 && s.nodes[0].phase == NodePending && s.nodes[1].phase == NodeDraining
    ensures s.nodes[0].batch == s.nodes[1].batch == 0
  {
    var ns := [NodeRec("a", NodePending, 0, None, None, 0, 0, 0, 0, NoReason),
               NodeRec("b", NodeDraining, 0, Some(0), None, 0, 0, 0, 0, NoReason)];
    var plan := Plan(StrategyBatched, [Batch(0, "", ["a", "b"])], 2, 2);
    s := Status(PhaseExecuting, None, Some(plan), ns, Recount(ns), Some(0), None, Running);
    OneBatchShape(plan.batches[0], ns);
    ExecutesOk(s, plan, plan.batches[0]);
  }

  lemma ExecutesOk(s: Status, plan: Plan, b: Batch)
    requires plan.batches == [b] && s.nodes != [] && NodesOk(s.nodes) && SameShape(s.nodes, InitNodes([b]))
    requires s == Status(PhaseExecuting, None, Some(plan), s.nodes, Recount(s.nodes), Some(0), None, Running)
    ensures StatusOk(s)
  {
  }

  lemma OneBatchShape(b: Batch, ns: seq<NodeRec>)
    requires |ns| == |b.nodes| && forall i | 0 <= i < |ns| :: ns[i].node == b.nodes[i] && ns[i].batch == b.index
    ensures SameShape(ns, InitNodes([b]))
  {
    assert [b][..0] == [];
    assert InitNodes([b]) == PendingRecs(b.nodes, b.index);
  }

  lemma {:induction false} TwoRecords(ns: seq<NodeRec>)
    requires |ns| == 2 && ns[0].phase == NodePending && ns[1].phase == NodeDraining && ns[0].batch == ns[1].batch == 0
    ensures CountIn(ns, IN_FLIGHT) == 1 && CountIn(ns, {NodeFailed}) == 0 && CountIn(ns, {NodePostCheck}) == 0
    ensures CurrentBatch(ns) == 0
  {
    var first := ns[..1];
    assert first[..0] == [] && CurrentBatch([]) == -1 && CountIn([], IN_FLIGHT) == 0;
    assert CurrentBatch(first) == 0 && CountIn(first, IN_FLIGHT) == 0;
    CountBounds(ns, {NodeFailed});
    CountBounds(ns, {NodePostCheck});
  }

  lemma HoldsUp(p: Pass, q: Pass, s: Status)
    requires RunsBatch(p, s) && p.windows == Some(true) && q == p.(windows := Some(false)) && Budget(p, PolicyOf(p)) == 2
    requires p.answers == [FAILING, DRAINS]
    requires |s.nodes| == 2 && s.nodes[0].phase == NodePending && s.nodes[1].phase == NodeDraining
    requires s.nodes[0].batch == s.nodes[1].batch == 0
    ensures NodesAfter(p, s)[1].phase == NodeDraining && NodesAfter(q, s)[1].phase == NodePostCheck
  {
    var pol := PolicyOf(p);
    var c, b, fl := ContextOf(p, pol), CurrentBatch(s.nodes), CountIn(s.nodes, IN_FLIGHT);
    SameButWindow(p, q, pol, s);
    TwoRecords(s.nodes);
    assert StepTo(c, p.answers, b, s.nodes, fl, 0) == LoopOut(s.nodes, fl, [], false);
    assert Refused(c, p.answers, b, s.nodes, fl, 0);
    RefusedStops(c, p.answers, b, s.nodes, fl, 0, 1);
    HeldVisit(ContextOf(q, pol), p.answers, b, s.nodes, fl);
  }

  lemma {:induction false} HeldVisit(d: StepContext, answers: seq<NodeAnswer>, b: int, ns: seq<NodeRec>, fl: int)
    requires !d.windowOpen && answers == [FAILING, DRAINS]
    requires |ns| == 2 && ns[0].phase == NodePending && ns[1].phase == NodeDraining && ns[0].batch == ns[1].batch == b
    ensures StepTo(d, answers, b, ns, fl, 2).nodes[1].phase == NodePostCheck
  {
    assert StepTo(d, answers, b, ns, fl, 0) == LoopOut(ns, fl, [], false);
    assert StepTo(d, answers, b, ns, fl, 1).nodes == ns && !StepTo(d, answers, b, ns, fl, 1).err;
  }
}
