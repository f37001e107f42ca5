/** A pass taken apart: which records it leaves, and which calls it makes. */
module PassFacts {
  import opened Api
  import opened NodeMachine
  import opened Passes
  import opened StateMachine

  /** The pass visits the nodes of the current batch. */
  predicate RunsBatch(p: Pass, s: Status) {
    && Proceeds(p, s) && s.phase == PhaseExecuting
    && !GlobalTimedOut(p, s) && s.plan.Some?
    && CountIn(s.nodes, {NodeFailed}) < Threshold(PolicyOf(p))
    && !(UncordonHeld(p, PolicyOf(p)) && CountIn(s.nodes, {NodePostCheck}) > 0)
    && CurrentBatch(s.nodes) >= 0
  }

  /** The pass puts a planned request into execution. */
  predicate Starts(p: Pass, s: Status) {
    && Proceeds(p, s) && s.phase == PhasePlanned
    && p.target.Some? && !p.planError && !p.spec.mode.ModeAdvisory? && |p.target.value.nodes| > 0 && p.windows == Some(true)
  }

  /** The pass puts the blocked nodes of a blocked request back to draining. */
  predicate Retries(p: Pass, s: Status) {
    && Proceeds(p, s) && s.phase == PhaseBlocked
    && !GlobalTimedOut(p, s) && s.plan.Some? && s.nodes != [] && CountIn(s.nodes, {NodeBlocked}) > 0
  }

  function NodesAfter(p: Pass, s: Status): seq<NodeRec> {
    if RunsBatch(p, s) then RunBatch(p, PolicyOf(p), s).nodes
    else if Starts(p, s) && s.nodes == [] then InitNodes(PlanFor(p, PolicyOf(p), p.target.value).batches)
    else if Retries(p, s) then RetryAll(s.nodes, p.now)
    else s.nodes
  }

  lemma ExecutingNodes(p: Pass, pol: PolicySpec, s: Status)
    ensures Executing(p, pol, s).mem.nodes ==
            if !GlobalTimedOut(p, s) && s.plan.Some? && CountIn(s.nodes, {NodeFailed}) < Threshold(pol)
               && !(UncordonHeld(p, pol) && CountIn(s.nodes, {NodePostCheck}) > 0) && CurrentBatch(s.nodes) >= 0
            then RunBatch(p, pol, s).nodes else s.nodes
  {
  }

  lemma PlannedNodes(p: Pass, pol: PolicySpec, s: Status)
    ensures Planned(p, pol, s).mem.nodes ==
            if p.target.Some? && !p.planError && !p.spec.mode.ModeAdvisory? && |p.target.value.nodes| > 0
               && p.windows == Some(true) && s.nodes == []
            then InitNodes(PlanFor(p, pol, p.target.value).batches) else s.nodes
  {
    if p.target.Some? {
      assert PlanFor(p, pol, p.target.value).totalNodes == |p.target.value.nodes|;
    }
  }

  /** What a start does, given its plan. */
  lemma StartIsBegin(p: Pass, pol: PolicySpec, s: Status, plan: Plan)
    requires p.target.Some? && !p.planError && !p.spec.mode.ModeAdvisory? && p.windows == Some(true)
    requires plan == PlanFor(p, pol, p.target.value) && plan.totalNodes > 0
    ensures Planned(p, pol, s) == Begin(p, s.(plan := Some(plan)), plan)
  {
  }

  lemma DispatchNodes(p: Pass, s: Status)
    requires Proceeds(p, s)
    ensures Dispatch(p, PolicyOf(p), s).mem.nodes == NodesAfter(p, s)
  {
    var pol := PolicyOf(p);
    match s.phase
    case PhaseExecuting => ExecutingNodes(p, pol, s);
    case PhasePlanned => PlannedNodes(p, pol, s);
    case _ =>
  }

  lemma PassNodes(p: Pass, s: Status)
    ensures Reconcile(p, s).mem.nodes == NodesAfter(p, s)
  {
    if Proceeds(p, s) {
      DispatchNodes(p, s);
    }
  }

  /** The pass visits the batch and comes to the node at i, which is not terminal. */
  predicate Reached(p: Pass, s: Status, i: nat) {
    && RunsBatch(p, s) && i < |s.nodes| && !IsNodeTerminal(s.nodes[i].phase) && s.nodes[i].batch == CurrentBatch(s.nodes)
    && !StepTo(ContextOf(p, PolicyOf(p)), p.answers, CurrentBatch(s.nodes), s.nodes, CountIn(s.nodes, IN_FLIGHT), i).err
  }

  /** The gate judgement of the pass, if it makes one. */
  function Judgement(p: Pass, s: Status): seq<Event> {
    if !Proceeds(p, s) then []
    else if s.phase in {PhasePending, PhaseValidating} then
      if p.target.Some? && !(p.target.value.nodes == [] && p.target.value.missing == []) && !p.preflightError
         && !PreflightFails(p, PolicyOf(p), p.target.value) && !p.planError && !p.spec.mode.ModeDryRun?
      then [Judged(GateDrain, VerdictAt(p, PolicyOf(p), GateDrain))] else []
    else if s.phase == PhaseAwaitingApproval then [Judged(PendingGate(s), VerdictAt(p, PolicyOf(p), PendingGate(s)))]
    else if s.phase == PhaseExecuting && !GlobalTimedOut(p, s) && s.plan.Some?
            && CountIn(s.nodes, {NodeFailed}) < Threshold(PolicyOf(p)) && !p.spec.ReplaceNodes()
    then [Judged(GateUncordon, VerdictAt(p, PolicyOf(p), GateUncordon))]
    else []
  }

  function BatchCalls(p: Pass, s: Status): seq<Event> {
    if RunsBatch(p, s) then RunBatch(p, PolicyOf(p), s).events else []
  }

  /** The pass ends the request in a way that returns its nodes to service: a failure or a user's cancel. */
  predicate Aborts(p: Pass, s: Status) {
    !IsTerminal(s.phase) && Reconcile(p, s).mem.ending in {Aborted, CancelledByUser}
  }

  function ReleaseCalls(p: Pass, s: Status): seq<Event> {
    if Aborts(p, s) && Releases(p.spec) then ReleaseTo(p, NodesAfter(p, s), |NodesAfter(p, s)|) else []
  }

  lemma AdvanceCalls(p: Pass, pol: PolicySpec, s: Status)
    requires s.ending.Running?
    ensures var o := Advance(p, pol, s);
            o.events ==
              (if !(UncordonHeld(p, pol) && CountIn(s.nodes, {NodePostCheck}) > 0) && CurrentBatch(s.nodes) >= 0
               then RunBatch(p, pol, s).events else [])
              + ReleasedBy(p, o)
  {
  }

  lemma ExecutingCalls(p: Pass, pol: PolicySpec, s: Status)
    requires s.ending.Running?
    ensures var o := Executing(p, pol, s);
            var checked := !GlobalTimedOut(p, s) && s.plan.Some? && CountIn(s.nodes, {NodeFailed}) < Threshold(pol);
            o.events ==
              (if checked && !p.spec.ReplaceNodes() then [Judged(GateUncordon, VerdictAt(p, pol, GateUncordon))] else [])
              + (if checked && !(UncordonHeld(p, pol) && CountIn(s.nodes, {NodePostCheck}) > 0) && CurrentBatch(s.nodes) >= 0
                 then RunBatch(p, pol, s).events else [])
              + ReleasedBy(p, o)
  {
    AdvanceCalls(p, pol, s);
  }

  /** The abort uncordons a result calls for. */
  function ReleasedBy(p: Pass, o: Out): seq<Event> {
    if o.mem.ending in {Aborted, CancelledByUser} && Releases(p.spec) then ReleaseTo(p, o.mem.nodes, |o.mem.nodes|) else []
  }

  lemma ValidatingCalls(p: Pass, pol: PolicySpec, s: Status)
    requires s.ending.Running?
    ensures var o := Validating(p, pol, s);
            o.events ==
              (if p.target.Some? && !(p.target.value.nodes == [] && p.target.value.missing == []) && !p.preflightError
                  && !PreflightFails(p, pol, p.target.value) && !p.planError && !p.spec.mode.ModeDryRun?
               then [Judged(GateDrain, VerdictAt(p, pol, GateDrain))] else [])
              + ReleasedBy(p, o)
  {
  }

  lemma AwaitingCalls(p: Pass, pol: PolicySpec, s: Status)
    requires s.ending.Running?
    ensures var o := AwaitingApproval(p, pol, s);
            o.events == [Judged(PendingGate(s), VerdictAt(p, pol, PendingGate(s)))] + ReleasedBy(p, o)
  {
  }

  lemma PlannedCalls(p: Pass, pol: PolicySpec, s: Status)
    requires s.ending.Running?
    ensures Planned(p, pol, s).events == ReleasedBy(p, Planned(p, pol, s))
  {
  }

  lemma HeldCalls(p: Pass, s: Status)
    requires s.ending.Running?
    ensures Paused(p, s).events == ReleasedBy(p, Paused(p, s))
    ensures Blocked(p, s).events == ReleasedBy(p, Blocked(p, s))
  {
  }

  /** The result's calls are the judgement, the steps and the abort uncordons of the pass, in that order. */
  predicate CallsOf(p: Pass, s: Status, o: Out) {
    o.events == Judgement(p, s) + BatchCalls(p, s) + ReleasedBy(p, o)
  }

  lemma ValidatingIs(p: Pass, s: Status)
    requires s.ending.Running? && Proceeds(p, s) && s.phase in {PhasePending, PhaseValidating}
    ensures CallsOf(p, s, Validating(p, PolicyOf(p), s))
  {
    ValidatingCalls(p, PolicyOf(p), s);
    assert BatchCalls(p, s) == [];
  }

  lemma AwaitingIs(p: Pass, s: Status)
    requires s.ending.Running? && Proceeds(p, s) && s.phase == PhaseAwaitingApproval
    ensures CallsOf(p, s, AwaitingApproval(p, PolicyOf(p), s))
  {
    AwaitingCalls(p, PolicyOf(p), s);
    assert BatchCalls(p, s) == [];
  }

  lemma ExecutingIs(p: Pass, s: Status)
    requires s.ending.Running? && Proceeds(p, s) && s.phase == PhaseExecuting
    ensures CallsOf(p, s, Executing(p, PolicyOf(p), s))
  {
    ExecutingCalls(p, PolicyOf(p), s);
  }

  lemma QuietIs(p: Pass, s: Status, o: Out)
    requires s.phase in {PhasePlanned, PhasePaused, PhaseBlocked} && o.events == ReleasedBy(p, o)
    ensures CallsOf(p, s, o)
  {
    assert Judgement(p, s) == [] && BatchCalls(p, s) == [];
  }

  lemma DispatchCalls(p: Pass, s: Status)
    requires s.ending.Running? && Proceeds(p, s)
    ensures CallsOf(p, s, Dispatch(p, PolicyOf(p), s))
  {
    var pol := PolicyOf(p);
    match s.phase
    case PhasePending => ValidatingIs(p, s);
    case PhaseValidating => ValidatingIs(p, s);
    case PhaseAwaitingApproval => AwaitingIs(p, s);
    case PhasePlanned =>
      PlannedCalls(p, pol, s);
      QuietIs(p, s, Planned(p, pol, s));
    case PhaseExecuting => ExecutingIs(p, s);
    case PhasePaused =>
      HeldCalls(p, s);
      QuietIs(p, s, Paused(p, s));
    case PhaseBlocked =>
      HeldCalls(p, s);
      QuietIs(p, s, Blocked(p, s));
  }

  lemma OtherCalls(p: Pass, s: Status)
    requires IsTerminal(s.phase) || s.ending.Running?
    requires !Proceeds(p, s)
    ensures Reconcile(p, s).events == if IsTerminal(s.phase) then [] else ReleasedBy(p, Reconcile(p, s))
  {
  }

  /** The calls of a pass, in order: a judgement, the steps of the batch, the abort uncordons. */
  lemma PassCalls(p: Pass, s: Status)
    requires IsTerminal(s.phase) || s.ending.Running?
    ensures Reconcile(p, s).events == Judgement(p, s) + BatchCalls(p, s) + ReleaseCalls(p, s)
  {
    PassNodes(p, s);
    if Proceeds(p, s) {
      DispatchCalls(p, s);
    } else {
      OtherCalls(p, s);
    }
  }
}
