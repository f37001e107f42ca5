/** What holds of the stored status at every moment of every run. */
module Invariant {
  import opened Api
  import opened NodeMachine
  import opened Passes
  import opened StateMachine
  import Planner
  import Policy

  /** A record is ended exactly when it is terminal, has a start time while in flight (the timeouts need it),
    * carries a block reason exactly when it is blocked or failed, has no pods left once drained, and has counted
    * its pods when some are left. */
  ghost predicate RecOk(r: NodeRec) {
    && (IsNodeTerminal(r.phase) <==> r.endTime.Some?)
    && (r.phase in IN_FLIGHT ==> r.startTime.Some?)
    && (r.blockReason != NoReason <==> r.phase in {NodeBlocked, NodeFailed})
    && (r.phase in {NodePostCheck, NodeUncordoning, NodeReplacing, NodeAwaitingReplacement, NodeCompleted, NodeFailed}
        ==> r.remainingPods == 0)
    && (r.remainingPods > 0 ==> r.totalPods > 0)
    && r.batch >= 0
  }

  /** The same nodes in the same batches. */
  ghost predicate SameShape(a: seq<NodeRec>, b: seq<NodeRec>) {
    |a| == |b| && forall i | 0 <= i < |a| :: a[i].node == b[i].node && a[i].batch == b[i].batch
  }

  /** While some node is pending, nodes start batch by batch: behind a batch that is not done, all are pending. */
  ghost predicate BatchOrder(ns: seq<NodeRec>) {
    forall p, i, j | 0 <= p < |ns| && 0 <= i < |ns| && 0 <= j < |ns| ::
      ns[p].phase == NodePending && ns[i].batch < ns[j].batch && !IsNodeTerminal(ns[i].phase)
      ==> ns[j].phase == NodePending
  }

  ghost predicate NodesOk(ns: seq<NodeRec>) {
    (forall i | 0 <= i < |ns| :: RecOk(ns[i])) && BatchOrder(ns)
  }

  /** The request phase and the rest of the status agree. */
  ghost predicate PhaseOk(s: Status) {
    && (s.phase in {PhaseNone, PhasePending, PhaseValidating} ==> s.plan.None? && s.gate.None?)
    && (s.phase == PhasePlanned ==> s.plan.Some? && s.gate.None? && s.nodes == [])
    && (s.phase == PhaseExecuting ==> s.nodes != [] && s.gate.None?)
    && (s.phase == PhaseAwaitingApproval ==> s.gate.Some?)
    && (s.gate == Some(GateDrain) ==> s.plan.Some? && s.nodes == [])
    && (s.gate == Some(GateUncordon) ==> s.nodes != [])
    && (s.phase == PhaseBlocked ==> s.gate.None? && if s.nodes == [] then s.plan.None? else AllBlocked(s.nodes))
    && (s.phase == PhaseCompleted ==> AllDone(s.nodes))
    && EndingOk(s.phase, s.ending)
    && (s.ending == RejectedAtGate(GateDrain) ==> s.nodes == [])
  }

  ghost predicate EndingOk(phase: Phase, ending: Ending) {
    match ending
    case Running => !IsTerminal(phase)
    case Finished => phase == PhaseCompleted
    case Aborted => phase == PhaseFailed
    case CancelledByUser => phase == PhaseCancelled
    case RejectedAtGate(_) => phase == PhaseCancelled
  }

  /** Nothing is left to do but retry: all terminal, none failed, some blocked. */
  ghost predicate AllBlocked(ns: seq<NodeRec>) {
    && (forall i | 0 <= i < |ns| :: IsNodeTerminal(ns[i].phase) && ns[i].phase != NodeFailed)
    && CountIn(ns, {NodeBlocked}) > 0
  }

  ghost predicate AllDone(ns: seq<NodeRec>) {
    forall i | 0 <= i < |ns| :: ns[i].phase in {NodeCompleted, NodeSkipped}
  }

  /** The records are the nodes of the plan, well formed, and counted. */
  ghost predicate DataOk(plan: Option<Plan>, ns: seq<NodeRec>, summary: Summary, startTime: Option<int>) {
    && NodesOk(ns)
    && summary == Recount(ns)
    && (ns != [] ==> plan.Some? && startTime.Some? && SameShape(ns, InitNodes(plan.value.batches)))
  }

  ghost predicate StatusOk(s: Status) {
    DataOk(s.plan, s.nodes, s.summary, s.startTime) && PhaseOk(s)
  }

  // ----- records -----

  /** The step kept the record well formed, in its place, and did not make it pending. */
  ghost predicate KeptRec(r: NodeRec, r': NodeRec) {
    RecOk(r') && r'.node == r.node && r'.batch == r.batch && (r'.phase == NodePending ==> r.phase == NodePending)
  }

  lemma DrainingKeepsRec(c: StepContext, a: NodeAnswer, r: NodeRec, fl: int)
    requires RecOk(r) && r.phase == NodeDraining
    ensures KeptRec(r, StepDraining(c, a, r, fl).rec)
  {
  }

  lemma ReplacingKeepsRec(c: StepContext, a: NodeAnswer, r: NodeRec, fl: int)
    requires RecOk(r)
    ensures r.phase == NodeReplacing ==> KeptRec(r, StepReplacing(c, a, r, fl).rec)
    ensures r.phase == NodeAwaitingReplacement ==> KeptRec(r, StepAwaitingReplacement(c, a, r, fl).rec)
  {
  }

  lemma StepKeepsRec(c: StepContext, a: NodeAnswer, r: NodeRec, fl: int)
    requires RecOk(r)
    ensures KeptRec(r, Step(c, a, r, fl).rec)
  {
    match r.phase
    case NodeDraining => DrainingKeepsRec(c, a, r, fl);
    case NodeReplacing => ReplacingKeepsRec(c, a, r, fl);
    case NodeAwaitingReplacement => ReplacingKeepsRec(c, a, r, fl);
    case _ =>
  }

  lemma SteppedKeepsRec(c: StepContext, answers: seq<NodeAnswer>, b: int, r: NodeRec, r': NodeRec, i: nat)
    requires RecOk(r) && Stepped(c, answers, b, r, r', i)
    ensures RecOk(r') && r'.node == r.node && r'.batch == r.batch
    ensures r'.phase == NodePending ==> r.phase == NodePending
    ensures r' != r ==> r.batch == b && !IsNodeTerminal(r.phase)
  {
    if r' != r {
      var fl :| r' == Step(c, AnswerAt(answers, i), r, fl).rec;
      StepKeepsRec(c, AnswerAt(answers, i), r, fl);
    }
  }

  lemma BatchKeepsNodes(p: Pass, pol: PolicySpec, s: Status)
    requires NodesOk(s.nodes)
    ensures NodesOk(RunBatch(p, pol, s).nodes) && SameShape(RunBatch(p, pol, s).nodes, s.nodes)
    ensures forall i | 0 <= i < |s.nodes| ::
              var r, r' := s.nodes[i], RunBatch(p, pol, s).nodes[i];
              && (r' != r ==> r.batch == CurrentBatch(s.nodes) && !IsNodeTerminal(r.phase))
              && (r'.phase == NodePending ==> r.phase == NodePending)
  {
    var c, b := ContextOf(p, pol), CurrentBatch(s.nodes);
    SteppedOnce(c, p.answers, b, s.nodes, CountIn(s.nodes, IN_FLIGHT), |s.nodes|);
    CurrentBatchIsLeast(s.nodes);
    var ns := RunBatch(p, pol, s).nodes;
    forall i | 0 <= i < |ns|
      ensures RecOk(ns[i]) && ns[i].node == s.nodes[i].node && ns[i].batch == s.nodes[i].batch
      ensures ns[i].phase == NodePending ==> s.nodes[i].phase == NodePending
      ensures ns[i] != s.nodes[i] ==> s.nodes[i].batch == b && !IsNodeTerminal(s.nodes[i].phase)
    {
      SteppedKeepsRec(c, p.answers, b, s.nodes[i], ns[i], i);
    }
    BatchOrderKept(s.nodes, ns, b);
  }

  /** Only the current batch moves, so the order of batches is kept. */
  lemma BatchOrderKept(ns: seq<NodeRec>, ns': seq<NodeRec>, b: int)
    requires BatchOrder(ns) && SameShape(ns', ns)
    requires forall i | 0 <= i < |ns| && !IsNodeTerminal(ns[i].phase) :: b <= ns[i].batch
    requires forall i | 0 <= i < |ns| :: ns'[i].phase == NodePending ==> ns[i].phase == NodePending
    requires forall i | 0 <= i < |ns| :: ns'[i] != ns[i] ==> ns[i].batch == b && !IsNodeTerminal(ns[i].phase)
    ensures BatchOrder(ns')
  {
    forall p, i, j | 0 <= p < |ns'| && 0 <= i < |ns'| && 0 <= j < |ns'|
                     && ns'[p].phase == NodePending && ns'[i].batch < ns'[j].batch && !IsNodeTerminal(ns'[i].phase)
      ensures ns'[j].phase == NodePending
    {
      assert !IsNodeTerminal(ns[i].phase);
      assert ns[p].phase == NodePending;
      assert ns[j].phase == NodePending;
      assert ns[j].batch != b;
    }
  }

  lemma RetryKeepsNodes(ns: seq<NodeRec>, now: int)
    requires NodesOk(ns) && AllBlocked(ns)
    ensures NodesOk(RetryAll(ns, now)) && SameShape(RetryAll(ns, now), ns)
  {
    var r := RetryAll(ns, now);
    forall i | 0 <= i < |r| ensures RecOk(r[i]) && r[i].phase != NodePending {
      assert RecOk(ns[i]);
    }
  }

  lemma {:induction false} InitNodesOk(batches: seq<Batch>)
    requires forall i | 0 <= i < |batches| :: batches[i].index == i
    ensures forall i | 0 <= i < |InitNodes(batches)| ::
              var r := InitNodes(batches)[i];
              RecOk(r) && r.phase == NodePending && 0 <= r.batch < |batches|
  {
    if batches != [] {
      InitNodesOk(batches[..|batches| - 1]);
    }
  }

  lemma {:induction false} RecordNames(batches: seq<Batch>)
    ensures NodeNames(InitNodes(batches)) == Planner.Flatten(batches)
  {
    if batches != [] {
      var n := |batches| - 1;
      var last := PendingRecs(batches[n].nodes, batches[n].index);
      RecordNames(batches[..n]);
      assert NodeNames(InitNodes(batches)) == NodeNames(InitNodes(batches[..n])) + NodeNames(last);
      assert NodeNames(last) == batches[n].nodes;
    }
  }

  function NodeNames(ns: seq<NodeRec>): (r: seq<string>)
    ensures |r| == |ns|
    ensures forall i | 0 <= i < |ns| :: r[i] == ns[i].node
  {
    seq(|ns|, i requires 0 <= i < |ns| => ns[i].node)
  }

  /** The records a plan starts with: all pending, and one for every target node as often as the target has it. */
  lemma PlanRecords(p: Pass, pol: PolicySpec, t: Target)
    ensures var ns := InitNodes(PlanFor(p, pol, t).batches);
            && multiset(NodeNames(ns)) == multiset(Planner.Names(t.nodes))
            && |ns| == |t.nodes|
            && NodesOk(ns)
            && (forall i | 0 <= i < |ns| :: ns[i].phase == NodePending)
  {
    var plan := PlanFor(p, pol, t);
    var ns := InitNodes(plan.batches);
    Planner.BatchesPartition(plan.strategy, t.nodes, p.spec.batchSize, Policy.Concurrency(pol, p.spec.maxConcurrent));
    InitNodesOk(plan.batches);
    RecordNames(plan.batches);
    assert |ns| == |multiset(NodeNames(ns))| == |multiset(Planner.Names(t.nodes))|;
  }

  // ----- passes -----

  lemma CompleteExecutionKeeps(p: Pass, s: Status)
    requires DataOk(s.plan, s.nodes, s.summary, s.startTime)
    requires s.nodes != [] && s.gate.None? && s.ending.Running?
    requires forall i | 0 <= i < |s.nodes| :: IsNodeTerminal(s.nodes[i].phase)
    ensures StatusOk(CompleteExecution(p, s).mem)
  {
    CountBounds(s.nodes, {NodeFailed});
    CountBounds(s.nodes, {NodeBlocked});
  }

  lemma DataKept(plan: Option<Plan>, ns: seq<NodeRec>, ns': seq<NodeRec>, summary: Summary, startTime: Option<int>)
    requires DataOk(plan, ns, summary, startTime)
    requires NodesOk(ns') && SameShape(ns', ns)
    ensures DataOk(plan, ns', Recount(ns'), startTime)
  {
  }

  lemma AfterBatchKeeps(p: Pass, s: Status, o: LoopOut)
    requires StatusOk(s) && s.phase == PhaseExecuting
    requires NodesOk(o.nodes) && SameShape(o.nodes, s.nodes)
    ensures StatusOk(AfterBatch(p, s, o).mem)
  {
    DataKept(s.plan, s.nodes, o.nodes, s.summary, s.startTime);
    CurrentBatchIsLeast(o.nodes);
    if !o.err && CurrentBatch(o.nodes) < 0 {
      CompleteExecutionKeeps(p, s.(nodes := o.nodes, summary := Recount(o.nodes)));
    }
  }

  lemma AdvanceKeeps(p: Pass, pol: PolicySpec, s: Status)
    requires StatusOk(s) && s.phase == PhaseExecuting
    ensures StatusOk(Advance(p, pol, s).mem)
  {
    CurrentBatchIsLeast(s.nodes);
    if UncordonHeld(p, pol) && CountIn(s.nodes, {NodePostCheck}) > 0 {
    } else if CurrentBatch(s.nodes) < 0 {
      CompleteExecutionKeeps(p, s);
    } else {
      BatchKeepsNodes(p, pol, s);
      AfterBatchKeeps(p, s, RunBatch(p, pol, s));
    }
  }

  lemma StartPlanKeeps(p: Pass, s: Status, plan: Plan)
    requires StatusOk(s) && s.phase == PhasePlanned
    requires NodesOk(InitNodes(plan.batches)) && |InitNodes(plan.batches)| == plan.totalNodes
    ensures StatusOk(StartPlan(p, s, plan).mem)
  {
  }

  lemma PlannedKeeps(p: Pass, pol: PolicySpec, s: Status)
    requires StatusOk(s) && s.phase == PhasePlanned
    ensures StatusOk(Planned(p, pol, s).mem)
  {
    if p.target.Some? {
      PlanRecords(p, pol, p.target.value);
      StartPlanKeeps(p, s, PlanFor(p, pol, p.target.value));
    }
  }

  lemma BlockedKeeps(p: Pass, s: Status)
    requires StatusOk(s) && s.phase == PhaseBlocked
    ensures StatusOk(Blocked(p, s).mem)
  {
    if !GlobalTimedOut(p, s) && s.nodes != [] {
      RetryKeepsNodes(s.nodes, p.now);
      DataKept(s.plan, s.nodes, RetryAll(s.nodes, p.now), s.summary, s.startTime);
    }
  }

  lemma RouteKeeps(p: Pass, s: Status, verdict: Verdict)
    requires DataOk(s.plan, s.nodes, s.summary, s.startTime)
    requires s.plan.Some? && s.gate.None? && s.nodes == [] && s.ending.Running?
    ensures StatusOk(RouteAtDrainGate(p, s, verdict).mem)
  {
  }

  lemma AdmitKeeps(p: Pass, pol: PolicySpec, s: Status, t: Target)
    requires StatusOk(s) && s.phase == PhaseValidating
    ensures StatusOk(Admit(p, pol, s, t).mem)
  {
    RouteKeeps(p, s.(plan := Some(PlanFor(p, pol, t))), VerdictAt(p, pol, GateDrain));
  }

  lemma ResolveKeeps(p: Pass, pol: PolicySpec, s: Status)
    requires StatusOk(s) && s.phase == PhaseValidating
    ensures StatusOk(Resolve(p, pol, s).mem)
  {
    if p.target.Some? {
      AdmitKeeps(p, pol, s, p.target.value);
    }
  }

  lemma ValidatingKeeps(p: Pass, pol: PolicySpec, s: Status)
    requires StatusOk(s) && s.phase in {PhasePending, PhaseValidating}
    ensures StatusOk(Validating(p, pol, s).mem)
  {
    ResolveKeeps(p, pol, s.(phase := PhaseValidating));
  }

  lemma SettleKeeps(p: Pass, s: Status, verdict: Verdict)
    requires StatusOk(s) && s.phase == PhaseAwaitingApproval
    ensures StatusOk(Settle(p, s, PendingGate(s), verdict).mem)
  {
  }

  lemma ExecutingKeeps(p: Pass, pol: PolicySpec, s: Status)
    requires StatusOk(s) && s.phase == PhaseExecuting
    ensures StatusOk(Executing(p, pol, s).mem)
  {
    AdvanceKeeps(p, pol, s);
  }

  lemma PausedKeeps(p: Pass, s: Status)
    requires StatusOk(s) && s.phase == PhasePaused
    ensures StatusOk(Paused(p, s).mem)
  {
  }

  lemma DispatchKeeps(p: Pass, pol: PolicySpec, s: Status)
    requires StatusOk(s)
    ensures StatusOk(Dispatch(p, pol, s).mem)
  {
    match s.phase
    case PhasePending => ValidatingKeeps(p, pol, s);
    case PhaseValidating => ValidatingKeeps(p, pol, s);
    case PhaseAwaitingApproval => SettleKeeps(p, s, VerdictAt(p, pol, PendingGate(s)));
    case PhasePlanned => PlannedKeeps(p, pol, s);
    case PhaseExecuting => ExecutingKeeps(p, pol, s);
    case PhasePaused => PausedKeeps(p, s);
    case PhaseBlocked => BlockedKeeps(p, s);
    case _ =>
  }

  /** Whatever a pass reads and whatever the user changed before it, it leaves a well-formed status, in memory
    * and so in the store. */
  lemma PassKeepsStatus(p: Pass, s: Status)
    requires StatusOk(s)
    ensures StatusOk(Reconcile(p, s).mem)
  {
    if Proceeds(p, s) {
      DispatchKeeps(p, PolicyOf(p), s);
    }
  }

  lemma {:induction false} StatusOkFrom(w: World, ps: seq<Pass>)
    requires StatusOk(w.status)
    ensures StatusOk(RunFrom(w, ps).status)
  {
    if ps != [] {
      var n := |ps| - 1;
      StatusOkFrom(w, ps[..n]);
      PassKeepsStatus(ps[n], RunFrom(w, ps[..n]).status);
    }
  }

  /** The stored status is well formed at every moment of every run: the summary is the recount of the records,
    * the records are the nodes of the plan, and phase, gate, plan and records agree. */
  lemma StatusAlwaysOk(ps: seq<Pass>)
    ensures StatusOk(Run(ps).status)
  {
    StatusOkFrom(START, ps);
  }
}
